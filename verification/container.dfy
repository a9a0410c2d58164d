/** The container: it builds the stack once, on its first size change, and
    routes each touch to the listener of the sheet it lands on. */
module Container {
  import opened Sheets
  import Stack
  import Gesture

  /** Settings fixed when the container is created: the display height
      (used by the drag formula), the number of sheets and their spacing. */
  datatype Config = Config(screenHeight: int, count: int, spacing: int)

  /** The container's state: whether the sheets were added, the sheets, and
      each sheet's listener state (same index as its sheet). */
  datatype Container = Container(config: Config, added: bool, sheets: seq<Sheet>, drags: seq<Gesture.DragState>)
  {
    predicate Valid() {
      |drags| == |sheets| && (!added ==> sheets == [])
    }
  }

  /** A container as created, before its first layout. */
  function Create(config: Config): (c: Container)
    ensures c.Valid() && !c.added
  {
    Container(config, false, [], [])
  }

  /** The size-change callback with the container's new height. Only the
      first call builds the stack, from that height; later calls, such as
      the ones a keyboard opening causes, change nothing. */
  function OnSizeChanged(c: Container, height: int): (r: Container)
    requires c.Valid()
    ensures r.Valid() && r.added && r.config == c.config
    ensures c.added ==> r == c
    ensures !c.added ==>
      r.sheets == Stack.AddSheets(height, c.config.count, c.config.spacing) &&
      forall i :: 0 <= i < |r.drags| ==> r.drags[i] == Gesture.Installed
  {
    if c.added then c
    else
      var sheets := Stack.AddSheets(height, c.config.count, c.config.spacing);
      Container(c.config, true, sheets, seq(|sheets|, _ => Gesture.Installed))
  }

  /** The size-change callback is idempotent: a second call, whatever the
      height, leaves the result of the first untouched. */
  lemma SizeChangedOnce(c: Container, first: int, second: int)
    requires c.Valid()
    ensures OnSizeChanged(OnSizeChanged(c, first), second) == OnSizeChanged(c, first)
  {
  }

  /** An event from the host: a size change, or a touch on sheet `index`. */
  datatype HostEvent =
    | SizeChanged(height: int)
    | Touch(index: int, event: Gesture.MotionEvent)

  /** One host event. A touch goes to the listener of sheet `index`, which
      reads and updates that sheet's listener state; an index with no sheet
      has no listener, so such a touch is not handled and changes nothing. */
  function Step(c: Container, e: HostEvent): (r: (Container, bool))
    requires c.Valid()
    ensures r.0.Valid() && r.0.config == c.config
    ensures c.added ==> r.0.added && SameShape(r.0.sheets, c.sheets)
    ensures e.SizeChanged? ==> r.0 == OnSizeChanged(c, e.height)
    ensures e.Touch? && !(0 <= e.index < |c.sheets|) ==> r == (c, false)
    ensures e.Touch? && 0 <= e.index < |c.sheets| ==>
      var o := Gesture.OnTouch(c.sheets, e.index, c.drags[e.index], e.event, c.config.screenHeight, c.config.spacing);
      && r.0.sheets == o.sheets
      && r.0.drags[e.index] == o.state
      && r.1 == o.handled
      && forall i :: 0 <= i < |c.drags| && i != e.index ==> r.0.drags[i] == c.drags[i]
  {
    match e
    case SizeChanged(height) => (OnSizeChanged(c, height), true)
    case Touch(k, ev) =>
      if 0 <= k < |c.sheets| then
        var o := Gesture.OnTouch(c.sheets, k, c.drags[k], ev, c.config.screenHeight, c.config.spacing);
        (c.(sheets := o.sheets, drags := c.drags[k := o.state]), o.handled)
      else (c, false)
  }

  /** A run of host events. */
  function Run(c: Container, evs: seq<HostEvent>): (r: Container)
    requires c.Valid()
    ensures r.Valid() && r.config == c.config
    decreases |evs|
  {
    if |evs| == 0 then c else Run(Step(c, evs[0]).0, evs[1..])
  }

  /** Once the sheets are added, no run of events changes their number or
      bounds, and the stack's shape (spaced bounds, heights within bounds
      and at least the spacing apart) survives every run. */
  lemma {:induction false} RunKeepsStack(c: Container, evs: seq<HostEvent>)
    requires c.Valid() && c.added
    ensures Run(c, evs).added
    ensures SameShape(Run(c, evs).sheets, c.sheets)
    ensures Stacked(c.sheets, c.config.spacing) ==> Stacked(Run(c, evs).sheets, c.config.spacing)
    decreases |evs|
  {
    if |evs| > 0 {
      var next := Step(c, evs[0]).0;
      if Stacked(c.sheets, c.config.spacing) && evs[0].Touch? && 0 <= evs[0].index < |c.sheets| {
        Gesture.OnTouchKeepsStacked(c.sheets, evs[0].index, c.drags[evs[0].index], evs[0].event,
                                    c.config.screenHeight, c.config.spacing);
      }
      RunKeepsStack(next, evs[1..]);
    }
  }

  /** The stack is fixed by the first size change: after it, whatever
      events follow (further size changes included), there are exactly as
      many sheets as the configured count and sheet `k` keeps the bounds
      computed from the first height. */
  lemma {:induction false} FirstLayoutFixesBounds(config: Config, height: int, evs: seq<HostEvent>, k: int)
    requires 0 <= k < Stack.Iterations(config.count)
    ensures var r := Run(Create(config), [SizeChanged(height)] + evs);
      |r.sheets| == Stack.Iterations(config.count) &&
      r.sheets[k].minHeight == config.spacing * (config.count - k) &&
      r.sheets[k].maxHeight == height - k * config.spacing
  {
    var evs' := [SizeChanged(height)] + evs;
    var built := OnSizeChanged(Create(config), height);
    assert evs'[1..] == evs;
    assert Run(Create(config), evs') == Run(built, evs);
    RunKeepsStack(built, evs);
  }

  /** When the first height leaves room for every sheet's minimum, every
      sheet stays within its bounds, and adjacent sheets stay at least the
      spacing apart, through any run of events that follows. */
  lemma {:induction false} FirstLayoutKeepsBounds(config: Config, height: int, evs: seq<HostEvent>)
    requires height >= config.count * config.spacing
    ensures Stacked(Run(Create(config), [SizeChanged(height)] + evs).sheets, config.spacing)
  {
    var evs' := [SizeChanged(height)] + evs;
    var built := OnSizeChanged(Create(config), height);
    assert evs'[1..] == evs;
    assert Run(Create(config), evs') == Run(built, evs);
    Stack.AddSheetsStacked(height, config.count, config.spacing);
    RunKeepsStack(built, evs);
  }
}
