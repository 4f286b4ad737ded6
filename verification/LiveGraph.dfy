/**
 * The live graph: the hub pushes trace values and re-sends the frequency axis
 * only when it changed; the controller rebuilds the axis from those deltas.
 */
module LiveGraph {
  import opened Prelude

  type Axis = seq<int>
  type Values = seq<real>

  /** An event payload: `frequencies` is present or absent, `traces` maps trace ids to values. */
  datatype Update = Update(frequencies: Option<Axis>, traces: map<int, Values>)

  // ---- the hub's push loop ---------------------------------------------------------

  /**
   * One pass of the loop as the outside world decides it: whether the stop
   * flag is set by the time it is tested, what each read of the device yields
   * (None when it raises), and whether the connection still takes the event.
   */
  datatype Cycle = Cycle(stopAtCheck: bool, traces: seq<Option<Values>>, axis: Option<Axis>,
                         stopAtPush: bool, sendFails: bool)

  datatype World = World(firstAxis: Option<Axis>, stopAtFirstPush: bool, firstSendFails: bool, cycles: seq<Cycle>)

  predicate Fits(ids: seq<int>, w: World) {
    forall c :: c in w.cycles ==> |c.traces| == |ids|
  }

  predicate AllRead(c: Cycle) {
    forall r :: r in c.traces ==> r.Some?
  }

  /** The dictionary filled by reading every requested trace in turn. */
  function TraceMap(ids: seq<int>, got: seq<Option<Values>>): (m: map<int, Values>)
    requires |ids| == |got| && forall r :: r in got ==> r.Some?
    ensures forall i :: i in m <==> i in ids
  {
    if ids == [] then map[]
    else
      var n := |ids| - 1;
      assert got[n] in got;
      TraceMap(ids[..n], got[..n])[ids[n] := got[n].value]
  }

  function Newest(axis: Option<Axis>, last: Option<Axis>): Option<Axis> {
    if axis.Some? then axis else last
  }

  // ---- the simple stream: every event carries the whole axis -------------------------

  /** What a hub without a cache would push: the newest axis read so far goes into every event. */
  function FullStream(ids: seq<int>, w: World): seq<Update>
    requires Fits(ids, w)
  {
    if w.firstAxis.None? then FullCycles(ids, None, w.cycles)
    else if w.stopAtFirstPush || w.firstSendFails then []
    else [Update(w.firstAxis, map[])] + FullCycles(ids, w.firstAxis, w.cycles)
  }

  function FullCycles(ids: seq<int>, last: Option<Axis>, cycles: seq<Cycle>): seq<Update>
    requires forall c :: c in cycles ==> |c.traces| == |ids|
    decreases |cycles|
  {
    if cycles == [] || cycles[0].stopAtCheck then []
    else
      var c := cycles[0];
      if !AllRead(c) then FullCycles(ids, last, cycles[1..])
      else
        var newest := Newest(c.axis, last);
        if c.stopAtPush || c.sendFails then []
        else [Update(newest, TraceMap(ids, c.traces))] + FullCycles(ids, newest, cycles[1..])
  }

  /**
   * The delta encoding of a stream: the axis is left out of an event when it
   * is the one the previous event had (`last` before the first).
   */
  function Deltas(last: Option<Axis>, full: seq<Update>): (d: seq<Update>)
    ensures |d| == |full|
    decreases |full|
  {
    if full == [] then []
    else
      var u := full[0];
      [if u.frequencies == last then u.(frequencies := None) else u] + Deltas(u.frequencies, full[1..])
  }

  /** What is still to be pushed when the loop test comes next. */
  function Remaining(ids: seq<int>, last: Option<Axis>, cycles: seq<Cycle>): seq<Update>
    requires forall c :: c in cycles ==> |c.traces| == |ids|
  {
    Deltas(last, FullCycles(ids, last, cycles))
  }

  /** One pass of the loop: what it sends, the axis it remembers, and whether it was the last. */
  predicate PassEffect(ids: seq<int>, c: Cycle, last: Option<Axis>, was: seq<Update>,
                       now: seq<Update>, last': Option<Axis>, over: bool)
    requires |c.traces| == |ids|
  {
    var newest := Newest(c.axis, last);
    if c.stopAtCheck then over && now == was
    else if !AllRead(c) then !over && now == was && last' == last
    else if c.stopAtPush || c.sendFails then over && now == was
    else !over && last' == newest
         && now == was + [Update(if newest == last then None else newest, TraceMap(ids, c.traces))]
  }

  lemma OnePass(ids: seq<int>, last: Option<Axis>, cycles: seq<Cycle>, was: seq<Update>,
                now: seq<Update>, last': Option<Axis>, over: bool)
    requires cycles != [] && forall c :: c in cycles ==> |c.traces| == |ids|
    requires PassEffect(ids, cycles[0], last, was, now, last', over)
    ensures was + Remaining(ids, last, cycles) == now + if over then [] else Remaining(ids, last', cycles[1..])
  {
    var c := cycles[0];
    assert c in cycles;
    var full := FullCycles(ids, last, cycles);
    if c.stopAtCheck || (AllRead(c) && (c.stopAtPush || c.sendFails)) {
      assert full == [];
    } else if !AllRead(c) {
      assert full == FullCycles(ids, last, cycles[1..]);
    } else {
      OneEvent(last, Update(last', TraceMap(ids, c.traces)), FullCycles(ids, last', cycles[1..]), was);
    }
  }

  lemma OneEvent(last: Option<Axis>, u: Update, rest: seq<Update>, was: seq<Update>)
    ensures was + Deltas(last, [u] + rest)
         == was + [Update(if u.frequencies == last then None else u.frequencies, u.traces)] + Deltas(u.frequencies, rest)
  {
    assert ([u] + rest)[1..] == rest;
  }

  // ---- the push loop as the hub runs it ------------------------------------------------

  class Subscription {
    const ids: seq<int>
    var stopped: bool
    var sent: seq<Update>

    constructor (ids: seq<int>)
      ensures this.ids == ids && !stopped && sent == []
    {
      this.ids := ids;
      stopped, sent := false, [];
    }

    /** Sends unless the stop flag is set; false when the connection raises. */
    method Push(data: Update, stopNow: bool, sendFails: bool) returns (ok: bool)
      modifies this
      ensures stopped == (old(stopped) || stopNow)
      ensures ok <==> stopped || !sendFails
      ensures sent == if stopped || sendFails then old(sent) else old(sent) + [data]
    {
      stopped := stopped || stopNow;
      if stopped {
        return true;
      }
      if sendFails {
        return false;
      }
      sent := sent + [data];
      return true;
    }

    /** Reads every requested trace, giving up at the first read that raises. */
    method ReadTraces(got: seq<Option<Values>>) returns (traces: map<int, Values>, complete: bool)
      requires |got| == |ids|
      ensures complete <==> forall r :: r in got ==> r.Some?
      ensures complete ==> traces == TraceMap(ids, got)
    {
      traces := map[];
      var i := 0;
      while i < |ids|
        invariant 0 <= i <= |ids|
        invariant forall r :: r in got[..i] ==> r.Some?
        invariant traces == TraceMap(ids[..i], got[..i])
      {
        assert got[i] in got;
        if got[i].None? {
          return traces, false;
        }
        assert got[..i + 1] == got[..i] + [got[i]];
        assert ids[..i + 1][..i] == ids[..i] && got[..i + 1][..i] == got[..i];
        traces := traces[ids[i] := got[i].value];
        i := i + 1;
      }
      assert ids[..i] == ids && got[..i] == got;
      complete := true;
    }

    /** One pass of the loop; `alive` turns false when the connection raises. */
    method Pass(c: Cycle, last: Option<Axis>) returns (last': Option<Axis>, alive: bool)
      requires |c.traces| == |ids| && !stopped
      modifies this
      ensures PassEffect(ids, c, last, old(sent), sent, last', stopped || !alive)
    {
      last', alive := last, true;
      stopped := c.stopAtCheck;
      if stopped {
        return;
      }
      var traces, complete := ReadTraces(c.traces);
      if complete {
        var data := Update(None, traces);
        if c.axis.Some? && c.axis != last {
          data := data.(frequencies := c.axis);
          last' := c.axis;
        }
        alive := Push(data, c.stopAtPush, c.sendFails);
      }
    }

    /** The thread body: it pushes exactly the delta encoding of the simple stream. */
    method Run(w: World)
      requires Fits(ids, w) && !stopped && sent == []
      modifies this
      ensures sent == Deltas(None, FullStream(ids, w))
    {
      ghost var whole := Deltas(None, FullStream(ids, w));
      var last := w.firstAxis;
      var alive := true;
      if last.Some? {
        OneEvent(None, Update(last, map[]), FullCycles(ids, last, w.cycles), []);
        alive := Push(Update(last, map[]), w.stopAtFirstPush, w.firstSendFails);
      }
      var i := 0;
      assert w.cycles[0..] == w.cycles;
      assert whole == sent + if stopped || !alive then [] else Remaining(ids, last, w.cycles);
      while i < |w.cycles| && !stopped && alive
        invariant 0 <= i <= |w.cycles|
        invariant whole == sent + if stopped || !alive then [] else Remaining(ids, last, w.cycles[i..])
      {
        ghost var was, was' := sent, last;
        last, alive := Pass(w.cycles[i], last);
        OnePass(ids, was', w.cycles[i..], was, sent, last, stopped || !alive);
        assert w.cycles[i..][1..] == w.cycles[i + 1..];
        i := i + 1;
      }
    }
  }

  // ---- the controller's half ----------------------------------------------------------------

  datatype Curve = Hidden | Drawn(xs: Axis, ys: Values)

  /** The panel's fields: three curves, for the traces 1, 2 and 3. */
  datatype Panel = Panel(running: bool, frequencies: Axis, curves: seq<Curve>)

  predicate PanelOk(p: Panel) {
    |p.curves| == 3
  }

  function Min(a: nat, b: nat): nat {
    if a < b then a else b
  }

  function Redrawn(curve: Curve, axis: Axis, id: int, traces: map<int, Values>): Curve {
    if curve.Hidden? || id !in traces then curve
    else
      var n := Min(|axis|, |traces[id]|);
      Drawn(axis[..n], traces[id][..n])
  }

  function AxisAfter(axis: Axis, u: Update): Axis {
    if u.frequencies.Some? && u.frequencies.value != [] then u.frequencies.value else axis
  }

  function Shown(p: Panel, u: Update): (q: Panel)
    requires PanelOk(p)
    ensures PanelOk(q)
  {
    if !p.running then p
    else
      var axis := AxisAfter(p.frequencies, u);
      Panel(true, axis, seq(3, i requires 0 <= i < 3 => Redrawn(p.curves[i], axis, i + 1, u.traces)))
  }

  class LiveGraphPanel {
    var running: bool
    var frequencies: Axis
    var curves: seq<Curve>

    function View(): Panel
      reads this
    {
      Panel(running, frequencies, curves)
    }

    constructor (visible: set<int>)
      ensures View() == Panel(true, [], seq(3, i => if i + 1 in visible then Drawn([], []) else Hidden))
    {
      running, frequencies := true, [];
      curves := seq(3, i => if i + 1 in visible then Drawn([], []) else Hidden);
    }

    method OnEvent(data: Update)
      requires PanelOk(View())
      modifies this
      ensures View() == Shown(old(View()), data)
    {
      if !running {
        return;
      }
      if data.frequencies.Some? && data.frequencies.value != [] {
        frequencies := data.frequencies.value;
      }
      var i := 0;
      while i < 3
        invariant 0 <= i <= 3 && |curves| == 3 && running
        invariant frequencies == AxisAfter(old(frequencies), data)
        invariant forall k :: 0 <= k < 3 ==>
          curves[k] == if k < i then Redrawn(old(curves)[k], frequencies, k + 1, data.traces) else old(curves)[k]
      {
        if curves[i].Drawn? && i + 1 in data.traces {
          var vals := data.traces[i + 1];
          var n := Min(|frequencies|, |vals|);
          curves := curves[i := Drawn(frequencies[..n], vals[..n])];
        }
        i := i + 1;
      }
    }
  }

  function Replay(p: Panel, events: seq<Update>): (q: Panel)
    requires PanelOk(p)
    ensures PanelOk(q)
    decreases |events|
  {
    if events == [] then p else Replay(Shown(p, events[0]), events[1..])
  }

  // ---- the promises ---------------------------------------------------------------------------

  /** The panel already shows the axis the hub has in its cache. */
  predicate InStep(p: Panel, last: Option<Axis>) {
    p.running && last.Some? && last.value != [] ==> p.frequencies == last.value
  }

  /**
   * The cache is invisible: after any number of events the panel - axis and
   * curves - is what the simple stream would have produced, whatever reads
   * failed or came back empty.
   */
  lemma {:induction false} DeltasShowFullStream(p: Panel, last: Option<Axis>, full: seq<Update>, k: nat)
    requires PanelOk(p) && InStep(p, last) && k <= |full|
    ensures Replay(p, Deltas(last, full)[..k]) == Replay(p, full[..k])
    decreases k
  {
    if k > 0 {
      var u := full[0];
      var d := Deltas(last, full);
      assert Shown(p, d[0]) == Shown(p, u);
      assert d[..k][1..] == d[1..][..k - 1] && full[..k][1..] == full[1..][..k - 1];
      DeltasShowFullStream(Shown(p, u), u.frequencies, full[1..], k - 1);
    }
  }

  lemma {:induction false} ReplayLast(p: Panel, events: seq<Update>)
    requires PanelOk(p) && events != []
    ensures Replay(p, events) == Shown(Replay(p, events[..|events| - 1]), events[|events| - 1])
    decreases |events|
  {
    if |events| > 1 {
      ReplayLast(Shown(p, events[0]), events[1..]);
      assert events[1..][..|events| - 2] == events[..|events| - 1][1..];
    }
  }

  /**
   * After each delivered event the controller's axis is the hub's, once an
   * axis has been read - unless the device returned an empty axis, which the
   * controller ignores: then the two agree iff the controller had none either.
   */
  lemma ControllerAxisIsHubs(p: Panel, ids: seq<int>, w: World, k: nat)
    requires PanelOk(p) && p.running && Fits(ids, w)
    requires var full := FullStream(ids, w); k < |full| && full[k].frequencies.Some?
    ensures var full := FullStream(ids, w);
      var sent := Deltas(None, full);
      var hubs := full[k].frequencies.value;
      (Replay(p, sent[..k + 1]).frequencies == hubs) <==> (hubs != [] || Replay(p, sent[..k]).frequencies == [])
  {
    var full := FullStream(ids, w);
    DeltasShowFullStream(p, None, full, k);
    DeltasShowFullStream(p, None, full, k + 1);
    ReplayLast(p, full[..k + 1]);
    assert full[..k + 1][..k] == full[..k];
    ReplayRunning(p, full[..k]);
  }

  lemma {:induction false} ReplayRunning(p: Panel, events: seq<Update>)
    requires PanelOk(p)
    ensures Replay(p, events).running == p.running
    decreases |events|
  {
    if events != [] {
      ReplayRunning(Shown(p, events[0]), events[1..]);
    }
  }

  /** The axis goes over the wire only when it changed: two axis-carrying events in a row never carry equal lists. */
  lemma {:induction false} AxisResentOnlyWhenChanged(last: Option<Axis>, full: seq<Update>, i: nat, j: nat)
    requires i < j < |full|
    requires forall k :: i < k < j ==> Deltas(last, full)[k].frequencies.None?
    requires forall k :: 0 < k < |full| && full[k - 1].frequencies.Some? ==> full[k].frequencies.Some?
    requires Deltas(last, full)[i].frequencies.Some? && Deltas(last, full)[j].frequencies.Some?
    ensures Deltas(last, full)[i].frequencies != Deltas(last, full)[j].frequencies
  {
    DeltaAt(last, full, i);
    DeltaAt(last, full, j);
    AxisUnchanged(last, full, i, j - 1);
  }

  lemma {:induction false} DeltaAt(last: Option<Axis>, full: seq<Update>, k: nat)
    requires k < |full|
    ensures var before := if k == 0 then last else full[k - 1].frequencies;
      Deltas(last, full)[k] == if full[k].frequencies == before then full[k].(frequencies := None) else full[k]
    decreases |full|
  {
    if k > 0 {
      DeltaAt(full[0].frequencies, full[1..], k - 1);
    }
  }

  lemma {:induction false} AxisUnchanged(last: Option<Axis>, full: seq<Update>, i: nat, j: nat)
    requires i <= j < |full| && full[i].frequencies.Some?
    requires forall k :: i < k <= j ==> Deltas(last, full)[k].frequencies.None?
    requires forall k :: 0 < k < |full| && full[k - 1].frequencies.Some? ==> full[k].frequencies.Some?
    ensures full[j].frequencies == full[i].frequencies
    decreases j
  {
    if i < j {
      AxisUnchanged(last, full, i, j - 1);
      DeltaAt(last, full, j);
    }
  }

  /** The simple stream never forgets an axis, and every event but the initial one carries exactly the requested ids. */
  lemma FullStreamShape(ids: seq<int>, w: World, k: nat)
    requires Fits(ids, w) && k < |FullStream(ids, w)|
    ensures var full := FullStream(ids, w);
      && (k > 0 && full[k - 1].frequencies.Some? ==> full[k].frequencies.Some?)
      && (if k == 0 && w.firstAxis.Some? then full[k] == Update(w.firstAxis, map[])
          else full[k].traces.Keys == set i | i in ids)
  {
    if w.firstAxis.None? {
      FullCyclesShape(ids, None, w.cycles, k);
    } else if k > 0 {
      FullCyclesShape(ids, w.firstAxis, w.cycles, k - 1);
    }
  }

  lemma {:induction false} FullCyclesShape(ids: seq<int>, last: Option<Axis>, cycles: seq<Cycle>, k: nat)
    requires forall c :: c in cycles ==> |c.traces| == |ids|
    requires k < |FullCycles(ids, last, cycles)|
    ensures var full := FullCycles(ids, last, cycles);
      && full[k].traces.Keys == (set i | i in ids)
      && ((if k == 0 then last else full[k - 1].frequencies).Some? ==> full[k].frequencies.Some?)
    decreases |cycles|
  {
    var c := cycles[0];
    assert c in cycles;
    if !AllRead(c) {
      FullCyclesShape(ids, last, cycles[1..], k);
    } else if k > 0 {
      FullCyclesShape(ids, Newest(c.axis, last), cycles[1..], k - 1);
    }
  }

  /**
   * On the wire: between two axis-carrying events with none in between the
   * axis differs, and every event but an initial one, which has no traces,
   * carries exactly the requested traces.
   */
  lemma SentStream(ids: seq<int>, w: World, i: nat, j: nat)
    requires Fits(ids, w) && i < j < |FullStream(ids, w)|
    ensures var sent := Deltas(None, FullStream(ids, w));
      && sent[j].traces.Keys == (set t | t in ids)
      && sent[i].traces.Keys == (if i == 0 && w.firstAxis.Some? then {} else set t | t in ids)
      && (sent[i].frequencies.Some? && sent[j].frequencies.Some? && (forall k :: i < k < j ==> sent[k].frequencies.None?)
          ==> sent[i].frequencies != sent[j].frequencies)
  {
    var full := FullStream(ids, w);
    forall k | 0 <= k < |full| ensures k > 0 && full[k - 1].frequencies.Some? ==> full[k].frequencies.Some? {
      FullStreamShape(ids, w, k);
    }
    FullStreamShape(ids, w, i);
    FullStreamShape(ids, w, j);
    DeltaAt(None, full, i);
    DeltaAt(None, full, j);
    var sent := Deltas(None, full);
    if sent[i].frequencies.Some? && sent[j].frequencies.Some? && forall k :: i < k < j ==> sent[k].frequencies.None? {
      AxisResentOnlyWhenChanged(None, full, i, j);
    }
  }

  // ---- the display, told by the readings alone ---------------------------------------------------

  /** A pass in which every read succeeded and the axis was not empty. */
  predicate FreshAxis(c: Cycle) {
    AllRead(c) && c.axis.Some? && c.axis.value != []
  }

  /** A pass that ends the loop: the flag is set when tested, or the push finds it set or the connection gone. */
  predicate Ends(c: Cycle) {
    c.stopAtCheck || (AllRead(c) && (c.stopAtPush || c.sendFails))
  }

  /** How many of the first `n` passes read all their traces. */
  function Completed(cycles: seq<Cycle>, n: nat): nat
    requires n <= |cycles|
  {
    if n == 0 then 0 else (if AllRead(cycles[0]) then 1 else 0) + Completed(cycles[1..], n - 1)
  }

  /** `axis` is that of the latest fresh pass among the first `n`, or `before` if there is none. */
  ghost predicate LatestAxis(cycles: seq<Cycle>, n: nat, before: Axis, axis: Axis)
    requires n <= |cycles|
  {
    || (exists k: nat :: k < n && FreshAxis(cycles[k]) && cycles[k].axis.value == axis
                         && forall j: nat :: k < j < n ==> !FreshAxis(cycles[j]))
    || (axis == before && forall j: nat :: j < n ==> !FreshAxis(cycles[j]))
  }

  lemma LatestAxisFrom(cycles: seq<Cycle>, n: nat, before: Axis, axis: Axis)
    requires 0 < n <= |cycles|
    requires LatestAxis(cycles[1..], n - 1, if FreshAxis(cycles[0]) then cycles[0].axis.value else before, axis)
    ensures LatestAxis(cycles, n, before, axis)
  {
    var rest := cycles[1..];
    assert forall j: nat :: 0 < j < n ==> cycles[j] == rest[j - 1];
    if k: nat :| k < n - 1 && FreshAxis(rest[k]) && rest[k].axis.value == axis
                 && forall j: nat :: k < j < n - 1 ==> !FreshAxis(rest[j]) {
      assert FreshAxis(cycles[k + 1]);
    } else {
      assert forall j: nat :: j < n - 1 ==> !FreshAxis(rest[j]);
    }
  }

  /** As long as no pass ends the loop, one event per completed pass, and the panel has the latest axis. */
  lemma {:induction false} CyclesShown(p: Panel, ids: seq<int>, last: Option<Axis>, cycles: seq<Cycle>, n: nat)
    requires PanelOk(p) && p.running && InStep(p, last) && n <= |cycles|
    requires forall c :: c in cycles ==> |c.traces| == |ids|
    requires forall j :: 0 <= j < n ==> !Ends(cycles[j])
    ensures var full := FullCycles(ids, last, cycles);
      Completed(cycles, n) <= |full| && LatestAxis(cycles, n, p.frequencies, Replay(p, full[..Completed(cycles, n)]).frequencies)
    decreases n
  {
    if n > 0 {
      var c, full, count := cycles[0], FullCycles(ids, last, cycles), Completed(cycles, n);
      assert c in cycles && !Ends(cycles[0]);
      if !AllRead(c) {
        CyclesShown(p, ids, last, cycles[1..], n - 1);
        LatestAxisFrom(cycles, n, p.frequencies, Replay(p, full[..count]).frequencies);
      } else {
        var newest := Newest(c.axis, last);
        var u := Update(newest, TraceMap(ids, c.traces));
        CyclesShown(Shown(p, u), ids, newest, cycles[1..], n - 1);
        assert full[..count][1..] == FullCycles(ids, newest, cycles[1..])[..count - 1];
        LatestAxisFrom(cycles, n, p.frequencies, Replay(p, full[..count]).frequencies);
      }
    }
  }

  /** Where the loop ends, so do the events: at the first pass that ends it, or with the last. */
  lemma {:induction false} CyclesEnd(ids: seq<int>, last: Option<Axis>, cycles: seq<Cycle>, n: nat)
    requires n <= |cycles| && forall c :: c in cycles ==> |c.traces| == |ids|
    requires (forall j :: 0 <= j < n ==> !Ends(cycles[j])) && (n == |cycles| || Ends(cycles[n]))
    ensures |FullCycles(ids, last, cycles)| == Completed(cycles, n)
    decreases n
  {
    if n > 0 {
      var c := cycles[0];
      assert c in cycles && !Ends(cycles[0]);
      CyclesEnd(ids, if AllRead(c) then Newest(c.axis, last) else last, cycles[1..], n - 1);
    } else if cycles != [] {
      assert cycles[0] in cycles;
    }
  }

  /** The values of a requested trace are those of its latest read. */
  lemma {:induction false} TraceMapValues(ids: seq<int>, got: seq<Option<Values>>, i: nat)
    requires |ids| == |got| && i < |ids| && forall r :: r in got ==> r.Some?
    requires forall j :: i < j < |ids| ==> ids[j] != ids[i]
    ensures got[i] in got && TraceMap(ids, got)[ids[i]] == got[i].value
  {
    var n := |ids| - 1;
    assert got[n] in got && got[i] in got;
    if i < n {
      TraceMapValues(ids[..n], got[..n], i);
    }
  }

  /** The event of a completed pass carries the values read in that pass. */
  lemma {:induction false} CycleEvent(ids: seq<int>, last: Option<Axis>, cycles: seq<Cycle>, n: nat)
    requires n < |cycles| && AllRead(cycles[n]) && forall c :: c in cycles ==> |c.traces| == |ids|
    requires forall j :: 0 <= j <= n ==> !Ends(cycles[j])
    ensures Completed(cycles, n) < |FullCycles(ids, last, cycles)|
    ensures cycles[n] in cycles
    ensures FullCycles(ids, last, cycles)[Completed(cycles, n)].traces == TraceMap(ids, cycles[n].traces)
    decreases n
  {
    var c := cycles[0];
    assert c in cycles && !Ends(cycles[0]) && cycles[n] in cycles;
    if n > 0 {
      assert cycles[1..][n - 1] == cycles[n];
      CycleEvent(ids, if AllRead(c) then Newest(c.axis, last) else last, cycles[1..], n - 1);
    }
  }

  /** How many events precede pass `n`: the initial one, if an axis was read, and one per completed pass. */
  function EventsBefore(w: World, n: nat): nat
    requires n <= |w.cycles|
  {
    (if w.firstAxis.Some? then 1 else 0) + Completed(w.cycles, n)
  }

  /** Neither the initial push nor any of the first `n` passes ends the loop. */
  predicate GoesOn(w: World, n: nat)
    requires n <= |w.cycles|
  {
    && (w.firstAxis.Some? ==> !w.stopAtFirstPush && !w.firstSendFails)
    && forall j :: 0 <= j < n ==> !Ends(w.cycles[j])
  }

  /** The axis on display before the first pass. */
  function FirstShown(p: Panel, w: World): Axis {
    if w.firstAxis.Some? && w.firstAxis.value != [] then w.firstAxis.value else p.frequencies
  }

  /**
   * What the controller shows, told by what the device returned: after the
   * events of the first `n` passes, the latest axis read in a pass all of
   * whose reads succeeded; before any such pass the first axis, or the one shown already.
   */
  lemma DisplayFollowsDevice(p: Panel, ids: seq<int>, w: World, n: nat)
    requires PanelOk(p) && p.running && Fits(ids, w) && n <= |w.cycles| && GoesOn(w, n)
    ensures var sent := Deltas(None, FullStream(ids, w));
      EventsBefore(w, n) <= |sent|
      && LatestAxis(w.cycles, n, FirstShown(p, w), Replay(p, sent[..EventsBefore(w, n)]).frequencies)
  {
    var full, count := FullStream(ids, w), EventsBefore(w, n);
    if w.firstAxis.None? {
      CyclesShown(p, ids, None, w.cycles, n);
    } else {
      var first := Update(w.firstAxis, map[]);
      CyclesShown(Shown(p, first), ids, w.firstAxis, w.cycles, n);
      assert full[..count][1..] == FullCycles(ids, w.firstAxis, w.cycles)[..count - 1];
    }
    DeltasShowFullStream(p, None, full, count);
  }

  /** The stream is no longer than that: it ends with the initial push, with the first pass that ends the loop, or with the last pass. */
  lemma StreamEnds(ids: seq<int>, w: World, n: nat)
    requires Fits(ids, w) && n <= |w.cycles|
    ensures w.firstAxis.Some? && (w.stopAtFirstPush || w.firstSendFails) ==> FullStream(ids, w) == []
    ensures GoesOn(w, n) && (n == |w.cycles| || Ends(w.cycles[n])) ==> |FullStream(ids, w)| == EventsBefore(w, n)
  {
    if GoesOn(w, n) && (n == |w.cycles| || Ends(w.cycles[n])) {
      CyclesEnd(ids, w.firstAxis, w.cycles, n);
    }
  }

  /** The event of a completed pass carries for each requested trace the values read for it in that pass. */
  lemma EventCarriesReadings(ids: seq<int>, w: World, n: nat, i: nat)
    requires Fits(ids, w) && n < |w.cycles| && GoesOn(w, n + 1) && AllRead(w.cycles[n])
    requires i < |ids| && forall j :: i < j < |ids| ==> ids[j] != ids[i]
    ensures w.cycles[n] in w.cycles && EventsBefore(w, n) < |FullStream(ids, w)|
    ensures var u := Deltas(None, FullStream(ids, w))[EventsBefore(w, n)];
      ids[i] in u.traces && Some(u.traces[ids[i]]) == w.cycles[n].traces[i]
  {
    CycleEvent(ids, w.firstAxis, w.cycles, n);
    TraceMapValues(ids, w.cycles[n].traces, i);
    DeltaAt(None, FullStream(ids, w), EventsBefore(w, n));
  }

  /** A curve pairs axis and values from the start, as far as both reach. */
  predicate Plots(curve: Curve, axis: Axis, values: Values) {
    curve.Drawn? && |curve.xs| == |curve.ys| && curve.xs <= axis && curve.ys <= values
    && (curve.xs == axis || curve.ys == values)
  }

  /** What an event does to the panel: nothing to a stopped one; curve `i` plots trace `i + 1` if visible and given, and is otherwise left alone. */
  lemma CurvesAfterEvent(p: Panel, u: Update, i: nat)
    requires PanelOk(p) && i < 3
    ensures !p.running ==> Shown(p, u) == p
    ensures p.running ==>
      var q := Shown(p, u);
      q.running
      && if p.curves[i].Drawn? && i + 1 in u.traces then Plots(q.curves[i], q.frequencies, u.traces[i + 1])
         else q.curves[i] == p.curves[i]
  {
  }

  // ---- late pushes --------------------------------------------------------------------------------

  predicate HasAxis(u: Update) {
    u.frequencies.Some? && u.frequencies.value != []
  }

  lemma {:induction false} ReplayConcat(p: Panel, a: seq<Update>, b: seq<Update>)
    requires PanelOk(p)
    ensures Replay(p, a + b) == Replay(Replay(p, a), b)
    decreases |a|
  {
    if a == [] {
      assert a + b == b;
    } else {
      assert (a + b)[1..] == a[1..] + b;
      ReplayConcat(Shown(p, a[0]), a[1..], b);
    }
  }

  /** An event as it reaches the panel: of the current subscription, or a late one of an earlier subscription. */
  datatype Arrival = Own(u: Update) | Stray(u: Update)

  function Events(arrivals: seq<Arrival>): seq<Update> {
    seq(|arrivals|, i requires 0 <= i < |arrivals| => arrivals[i].u)
  }

  function OwnEvents(arrivals: seq<Arrival>): seq<Update> {
    if arrivals == [] then []
    else
      var init, last := OwnEvents(arrivals[..|arrivals| - 1]), arrivals[|arrivals| - 1];
      if last.Own? then init + [last.u] else init
  }

  /** The last event that brought an axis. */
  function LastAxis(arrivals: seq<Arrival>): (r: Option<Arrival>)
    ensures r.Some? ==> HasAxis(r.value.u)
  {
    if arrivals == [] then None
    else if HasAxis(arrivals[|arrivals| - 1].u) then Some(arrivals[|arrivals| - 1])
    else LastAxis(arrivals[..|arrivals| - 1])
  }

  lemma AxisShown(p: Panel, events: seq<Update>)
    requires PanelOk(p) && p.running && events != []
    ensures var before, last := Replay(p, events[..|events| - 1]), events[|events| - 1];
      Replay(p, events).frequencies == if HasAxis(last) then last.frequencies.value else before.frequencies
  {
    ReplayLast(p, events);
    ReplayRunning(p, events[..|events| - 1]);
  }

  /** The axis shown is that of the last event that brought one, and stays with stray events left out unless that one is stray. */
  lemma {:induction false} ShownIsLast(p: Panel, arrivals: seq<Arrival>)
    requires PanelOk(p) && p.running
    ensures var shown, right := Replay(p, Events(arrivals)).frequencies, Replay(p, OwnEvents(arrivals)).frequencies;
      match LastAxis(arrivals)
      case None => shown == p.frequencies && right == p.frequencies
      case Some(Own(u)) => shown == u.frequencies.value && right == u.frequencies.value
      case Some(Stray(u)) => shown == u.frequencies.value
  {
    if arrivals != [] {
      var n := |arrivals| - 1;
      ShownIsLast(p, arrivals[..n]);
      var events, own := Events(arrivals), OwnEvents(arrivals);
      assert events[..n] == Events(arrivals[..n]);
      AxisShown(p, events);
      if arrivals[n].Own? {
        assert own[..|own| - 1] == OwnEvents(arrivals[..n]);
        AxisShown(p, own);
      }
    }
  }

  /**
   * Events are not checked for the subscription they belong to, and every
   * stopped subscription may send one more.  However those come in between:
   * after `j` own events the panel shows the right axis iff the last event
   * that brought one was its own, or brought that very axis.
   */
  lemma LatePush(p: Panel, last: Option<Axis>, full: seq<Update>, j: nat, arrivals: seq<Arrival>)
    requires PanelOk(p) && p.running && InStep(p, last) && j <= |full|
    requires OwnEvents(arrivals) == Deltas(last, full)[..j]
    ensures var right := Replay(p, full[..j]).frequencies;
      Replay(p, Events(arrivals)).frequencies == right
      <==> match LastAxis(arrivals)
           case Some(Stray(u)) => u.frequencies.value == right
           case _ => true
  {
    DeltasShowFullStream(p, last, full, j);
    ShownIsLast(p, arrivals);
  }

  /**
   * The hub's cache makes the error last: a stray axis stays on display through
   * any number of own events as long as the hub's axis does not change.
   */
  lemma StrayAxisStays(p: Panel, hubs: Axis, stray: Axis, own: seq<Update>)
    requires PanelOk(p) && p.running && hubs != [] && stray != [] && hubs != stray
    requires forall i :: 0 <= i < |own| ==> own[i].frequencies == Some(hubs)
    ensures var sent := Deltas(Some(hubs), own);
      Replay(p, [Update(Some(stray), map[])] + sent).frequencies == stray
  {
    var first := Update(Some(stray), map[]);
    var sent := Deltas(Some(hubs), own);
    forall i | 0 <= i < |sent| ensures sent[i].frequencies.None? {
      DeltaAt(Some(hubs), own, i);
    }
    ReplayConcat(p, [first], sent);
    assert [first][1..] == [];
    AxisUntouched(Shown(p, first), sent);
  }

  lemma {:induction false} AxisUntouched(p: Panel, events: seq<Update>)
    requires PanelOk(p) && forall i :: 0 <= i < |events| ==> events[i].frequencies.None?
    ensures Replay(p, events).frequencies == p.frequencies
    decreases |events|
  {
    if events != [] {
      AxisUntouched(Shown(p, events[0]), events[1..]);
    }
  }
}
