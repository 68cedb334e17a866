/** The replay controls of the tutor as pure functions over its playback state: the replay
    index, whether autoplay is on, and whether an autoplay interval is scheduled. `n` is
    always the length of the loaded move list. */
module Navigation {

  datatype Playback = Playback(index: int, playing: bool, intervalActive: bool)

  /** The largest index the controls reach: the last move's index, or 0 for an empty list. */
  function LastIndex(n: nat): nat {
    if n == 0 then 0 else n - 1
  }

  /** The state the component starts in. */
  const Start: Playback := Playback(0, false, false)

  /** The index stays within [0, LastIndex(n)], and an interval is scheduled exactly while playing. */
  predicate Inv(p: Playback, n: nat) {
    0 <= p.index <= LastIndex(n) && p.playing == p.intervalActive
  }

  /** resetBoard: back to index 0, playback stopped and its interval cleared. */
  function Reset(p: Playback): (r: Playback)
    ensures r.index == 0 && !r.playing && !r.intervalActive
    ensures forall n: nat :: Inv(r, n)
  {
    Playback(0, false, false)
  }

  /** nextMove: advance by one only while the index is below the last move's index. */
  function Next(p: Playback, n: nat): (r: Playback)
    ensures r.playing == p.playing && r.intervalActive == p.intervalActive
    ensures p.index < n - 1 ==> r.index == p.index + 1
    ensures p.index >= n - 1 ==> r == p
    ensures Inv(p, n) ==> Inv(r, n)
  {
    if p.index < n - 1 then p.(index := p.index + 1) else p
  }

  /** prevMove: step back by one only while the index is above 0. */
  function Prev(p: Playback): (r: Playback)
    ensures r.playing == p.playing && r.intervalActive == p.intervalActive
    ensures p.index > 0 ==> r.index == p.index - 1
    ensures p.index <= 0 ==> r == p
    ensures p.index >= 0 ==> r.index >= 0
    ensures forall n: nat :: Inv(p, n) ==> Inv(r, n)
  {
    if p.index > 0 then p.(index := p.index - 1) else p
  }

  /** jumpToMove: the index becomes exactly `t`, unclamped, and playback stops. */
  function JumpTo(p: Playback, t: int): (r: Playback)
    ensures r.index == t && !r.playing && !r.intervalActive
    ensures forall n: nat :: 0 <= t < n ==> Inv(r, n)
  {
    Playback(t, false, false)
  }

  /** playAnimation: when playing, stop and clear the interval; otherwise start playing and
      schedule one interval. The index is untouched. */
  function TogglePlay(p: Playback): (r: Playback)
    ensures r.index == p.index
    ensures r.playing == !p.playing
    ensures r.intervalActive == r.playing
    ensures forall n: nat :: Inv(p, n) ==> Inv(r, n)
  {
    if p.playing then p.(playing := false, intervalActive := false)
    else p.(playing := true, intervalActive := true)
  }

  /** The body of the autoplay interval: advance while below the last move's index; once
      there, leave the index, stop playing and clear the interval. */
  function Tick(p: Playback, n: nat): (r: Playback)
    ensures p.index < n - 1 ==> r == p.(index := p.index + 1)
    ensures p.index >= n - 1 ==> r == Playback(p.index, false, false)
    ensures n == 0 && p.index == 0 ==> r == Start
    ensures Inv(p, n) ==> Inv(r, n)
  {
    if p.index >= n - 1 then Playback(p.index, false, false)
    else p.(index := p.index + 1)
  }

  /** Loading a move list resets the index; playback flags are left alone. */
  function Load(p: Playback): (r: Playback)
    ensures r.index == 0 && r.playing == p.playing && r.intervalActive == p.intervalActive
    ensures forall n: nat :: p.playing == p.intervalActive ==> Inv(r, n)
  {
    p.(index := 0)
  }

  /** The events that change the playback state while a move list is loaded. */
  datatype Command =
    | NextMove
    | PrevMove
    | ResetBoard
    | JumpToMove(target: int)
    | PlayAnimation
    | IntervalTick

  /** The controls only offer jumps to an index of the list. */
  predicate Allowed(c: Command, n: nat) {
    c.JumpToMove? ==> 0 <= c.target < n
  }

  /** One event. A tick only happens while an interval is scheduled. */
  function Apply(p: Playback, c: Command, n: nat): Playback {
    match c
    case NextMove => Next(p, n)
    case PrevMove => Prev(p)
    case ResetBoard => Reset(p)
    case JumpToMove(t) => JumpTo(p, t)
    case PlayAnimation => TogglePlay(p)
    case IntervalTick => if p.intervalActive then Tick(p, n) else p
  }

  /** A sequence of events, in order. */
  function Run(p: Playback, cmds: seq<Command>, n: nat): Playback
    decreases |cmds|
  {
    if cmds == [] then p else Run(Apply(p, cmds[0], n), cmds[1..], n)
  }

  /** Any sequence of allowed events keeps the index in range and the interval tied to playing. */
  lemma {:induction false} RunKeepsInv(p: Playback, cmds: seq<Command>, n: nat)
    requires Inv(p, n)
    requires forall i :: 0 <= i < |cmds| ==> Allowed(cmds[i], n)
    ensures Inv(Run(p, cmds, n), n)
    decreases |cmds|
  {
    if cmds != [] {
      var q := Apply(p, cmds[0], n);
      assert Allowed(cmds[0], n);
      assert Inv(q, n);
      forall i | 0 <= i < |cmds[1..]| ensures Allowed(cmds[1..][i], n) {
        assert cmds[1..][i] == cmds[i + 1];
      }
      RunKeepsInv(q, cmds[1..], n);
    }
  }

  /** From the start state, whatever the user does, the index never leaves [0, LastIndex(n)]. */
  lemma FromStart(cmds: seq<Command>, n: nat)
    requires forall i :: 0 <= i < |cmds| ==> Allowed(cmds[i], n)
    ensures 0 <= Run(Start, cmds, n).index <= LastIndex(n)
    ensures Run(Start, cmds, n).playing == Run(Start, cmds, n).intervalActive
  {
    RunKeepsInv(Start, cmds, n);
  }

  /** `j` interval ticks in a row. */
  function Ticks(j: nat): seq<Command> {
    seq(j, _ => IntervalTick)
  }

  /** Autoplay started at index i ends, after LastIndex(n) - i + 1 ticks, stopped at the last
      index with its interval cleared. */
  lemma {:induction false} AutoplayStopsAtEnd(p: Playback, n: nat)
    requires Inv(p, n) && p.playing
    ensures Run(p, Ticks(LastIndex(n) - p.index + 1), n) == Playback(LastIndex(n), false, false)
    decreases LastIndex(n) - p.index
  {
    var j := LastIndex(n) - p.index + 1;
    var q := Tick(p, n);
    assert Ticks(j)[1..] == Ticks(j - 1);
    assert Run(p, Ticks(j), n) == Run(q, Ticks(j - 1), n);
    if p.index < LastIndex(n) {
      AutoplayStopsAtEnd(q, n);
    } else {
      assert j - 1 == 0;
    }
  }
}
