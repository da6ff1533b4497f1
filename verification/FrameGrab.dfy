/** The grab handshake: threads that wait for a frame, and the video callback that delivers it.
    Both hold the mutex from start to end except while blocked, so each step below is atomic. */
module FrameGrab {
  import opened Wrappers

  type Thread = nat

  datatype State<F> = State(
    waiting: set<Thread>,         // blocked on the condition variable
    woken: set<Thread>,           // notified, or spuriously woken, and contending for the mutex
    ready: bool,
    wantToGrab: bool,
    buffData: Option<F>,
    userCallback: bool,
    delivered: seq<F>,            // the non-empty frames so far
    lastGrab: nat,                // how many of them had arrived when the latest grab began
    began: map<Thread, nat>)      // the same for each thread's own grab

  datatype Step<F> =
    | Grab(t: Thread)             // set wantToGrab, clear ready, block
    | Wake(t: Thread)             // a spurious wake-up
    | Resume(t: Thread)           // take the mutex again: return if ready, else block
    | Frame(f: F)                 // the callback with a non-empty buffer
    | EmptyFrame                  // the callback with an empty buffer

  predicate Enabled<F>(s: State<F>, step: Step<F>) {
    match step
    case Grab(t) => t !in s.waiting && t !in s.woken
    case Wake(t) => t in s.waiting
    case Resume(t) => t in s.woken
    case _ => true
  }

  function Next<F>(s: State<F>, step: Step<F>): State<F> {
    match step
    case Grab(t) =>
      s.(wantToGrab := true, ready := false, waiting := s.waiting + {t},
         lastGrab := |s.delivered|, began := s.began[t := |s.delivered|])
    case Wake(t) => s.(waiting := s.waiting - {t}, woken := s.woken + {t})
    case Resume(t) =>
      if s.ready then s.(woken := s.woken - {t})
      else s.(woken := s.woken - {t}, waiting := s.waiting + {t})
    case Frame(f) =>
      var d := s.(delivered := s.delivered + [f]);
      if s.userCallback || s.wantToGrab then
        d.(buffData := Some(f), wantToGrab := false, ready := true, woken := s.woken + s.waiting, waiting := {})
      else d
    case EmptyFrame => s
  }

  ghost predicate Inv<F>(s: State<F>) {
    && s.waiting !! s.woken
    && (s.waiting != {} ==> !s.ready)
    && (s.ready ==> !s.wantToGrab)
    && (s.waiting + s.woken != {} && !s.ready ==> s.wantToGrab)
    && (forall t :: t in s.waiting || t in s.woken ==> t in s.began && s.began[t] <= s.lastGrab)
    && s.lastGrab <= |s.delivered|
    && (s.ready ==>
          && s.lastGrab < |s.delivered|
          && s.buffData == Some(if s.userCallback then s.delivered[|s.delivered| - 1] else s.delivered[s.lastGrab]))
    && (s.wantToGrab ==> s.lastGrab == |s.delivered|)
    && (s.userCallback && s.delivered != [] ==> s.buffData == Some(s.delivered[|s.delivered| - 1]))
  }

  lemma NextKeeps<F>(s: State<F>, step: Step<F>)
    requires Inv(s) && Enabled(s, step)
    ensures Inv(Next(s, step))
  {
    if step.Grab? { assert step.t in s.waiting + {step.t}; }
    if step.Resume? { assert step.t in s.waiting + s.woken; }
    if step.Wake? { assert step.t in s.waiting; }
  }

  ghost predicate Initial<F>(s: State<F>) {
    s.waiting == {} && s.woken == {} && !s.ready && !s.wantToGrab && s.buffData == None && s.delivered == [] && s.lastGrab == 0 && s.began == map[]
  }

  ghost predicate IsSegment<F>(ss: seq<State<F>>, steps: seq<Step<F>>) {
    && |ss| == |steps| + 1
    && forall i :: 0 <= i < |steps| ==> Enabled(ss[i], steps[i]) && ss[i + 1] == Next(ss[i], steps[i])
  }

  lemma {:induction false} SegmentKeeps<F>(ss: seq<State<F>>, steps: seq<Step<F>>, i: nat)
    requires IsSegment(ss, steps) && (Initial(ss[0]) || Inv(ss[0])) && i < |ss|
    ensures Inv(ss[i])
  {
    if i > 0 {
      SegmentKeeps(ss, steps, i - 1);
      NextKeeps(ss[i - 1], steps[i - 1]);
    }
  }

  /** No lost wake-up, for any number of threads: in every reachable state, while a thread waits
      and nothing is ready, the next non-empty frame is still wanted; and no thread is left
      blocked once something is ready. */
  lemma NoLostWakeup<F>(ss: seq<State<F>>, steps: seq<Step<F>>, i: nat, t: Thread)
    requires IsSegment(ss, steps) && Initial(ss[0]) && i < |ss|
    requires t in ss[i].waiting || t in ss[i].woken
    ensures !ss[i].ready ==> ss[i].wantToGrab
    ensures ss[i].ready ==> t in ss[i].woken
    ensures forall f :: var n := Next(ss[i], Frame(f)); n.ready && t in n.woken && t !in Next(n, Resume(t)).waiting + Next(n, Resume(t)).woken
  {
    SegmentKeeps(ss, steps, i);
    assert t in ss[i].waiting + ss[i].woken;
  }

  ghost predicate NoGrab<F>(steps: seq<Step<F>>) {
    forall i :: 0 <= i < |steps| ==> !steps[i].Grab?
  }

  /** While no new grab begins, whatever is ready stays ready and every woken thread stays free
      to return, so the frame releases all who waited for it; without a user callback the image
      does not change either, whatever frames arrive. */
  lemma {:induction false} ReadyUntilNextGrab<F>(ss: seq<State<F>>, steps: seq<Step<F>>, i: nat)
    requires IsSegment(ss, steps) && Inv(ss[0]) && ss[0].ready && NoGrab(steps) && i < |ss|
    ensures Inv(ss[i]) && ss[i].ready && ss[i].waiting == {} && ss[i].woken <= ss[0].woken
    ensures forall t :: t in ss[i].woken ==> t !in Next(ss[i], Resume(t)).waiting + Next(ss[i], Resume(t)).woken
    ensures !ss[0].userCallback ==> ss[i].buffData == ss[0].buffData
    ensures ss[i].userCallback == ss[0].userCallback
    decreases i
  {
    if i > 0 {
      ReadyUntilNextGrab(ss, steps, i - 1);
      NextKeeps(ss[i - 1], steps[i - 1]);
    }
  }

  /** The thread leaves the wait when it next takes the mutex. */
  ghost predicate Leaves<F>(s: State<F>, t: Thread) {
    var n := Next(s, Resume(t)); t !in n.waiting && t !in n.woken
  }

  /** A non-empty frame arrived, and no grab has begun since. */
  ghost predicate FrameSinceGrab<F>(steps: seq<Step<F>>, i: nat)
    requires i <= |steps|
  {
    exists m :: 0 <= m < i && steps[m].Frame? && forall k :: m < k < i ==> !steps[k].Grab?
  }

  lemma {:induction false} CountsFrames<F>(ss: seq<State<F>>, steps: seq<Step<F>>, i: nat)
    requires IsSegment(ss, steps) && Initial(ss[0]) && i < |ss|
    ensures ss[i].lastGrab <= |ss[i].delivered|
    ensures ss[i].lastGrab < |ss[i].delivered| <==> FrameSinceGrab(steps, i)
  {
    if i > 0 {
      CountsFrames(ss, steps, i - 1);
      if steps[i - 1].Frame? {
        assert FrameSinceGrab(steps, i);
      } else if !steps[i - 1].Grab? && FrameSinceGrab(steps, i - 1) {
        var m :| 0 <= m < i - 1 && steps[m].Frame? && forall k :: m < k < i - 1 ==> !steps[k].Grab?;
        assert forall k :: m < k < i ==> !steps[k].Grab?;
      } else if FrameSinceGrab(steps, i) {
        var m :| 0 <= m < i && steps[m].Frame? && forall k :: m < k < i ==> !steps[k].Grab?;
        assert m < i - 1 && !steps[i - 1].Grab?;
        assert FrameSinceGrab(steps, i - 1);
      }
    }
  }

  /** When a frame releases who waited for it: in every reachable state a woken thread leaves,
      as soon as it gets the mutex, exactly if a non-empty frame has arrived and no grab -
      of whichever thread - has begun since; otherwise it waits again. */
  lemma LeavesExactlyWhen<F>(ss: seq<State<F>>, steps: seq<Step<F>>, i: nat, t: Thread)
    requires IsSegment(ss, steps) && Initial(ss[0]) && i < |ss| && t in ss[i].woken
    ensures Leaves(ss[i], t) <==> FrameSinceGrab(steps, i)
    ensures !Leaves(ss[i], t) ==> t in Next(ss[i], Resume(t)).waiting && Next(ss[i], Resume(t)).wantToGrab
  {
    SegmentKeeps(ss, steps, i);
    CountsFrames(ss, steps, i);
    assert t in ss[i].waiting + ss[i].woken;
  }

  /** Fresh: when a grab returns in a reachable state, the image is a frame that arrived after
      that grab began. Without a user callback it is exactly the first frame after the latest
      grab began - the thread's own grab if it is the only one. */
  lemma GrabReturnsFreshFrame<F>(ss: seq<State<F>>, steps: seq<Step<F>>, i: nat, t: Thread)
    requires IsSegment(ss, steps) && Initial(ss[0]) && i < |ss|
    requires t in ss[i].woken && ss[i].ready
    ensures var s := ss[i];
            && t in s.began && s.began[t] <= s.lastGrab < |s.delivered|
            && (exists k :: s.began[t] <= k < |s.delivered| && s.buffData == Some(s.delivered[k]))
            && (!s.userCallback ==> s.buffData == Some(s.delivered[s.lastGrab]))
    ensures (forall j :: 0 <= j < i && steps[j].Grab? ==> steps[j].t == t) ==> ss[i].began[t] == ss[i].lastGrab
  {
    SegmentKeeps(ss, steps, i);
    if forall j :: 0 <= j < i && steps[j].Grab? ==> steps[j].t == t {
      SoleGrabber(ss, steps, i, t);
    }
  }

  lemma {:induction false} SoleGrabber<F>(ss: seq<State<F>>, steps: seq<Step<F>>, i: nat, t: Thread)
    requires IsSegment(ss, steps) && Initial(ss[0]) && i < |ss|
    requires forall j :: 0 <= j < i && steps[j].Grab? ==> steps[j].t == t
    ensures t in ss[i].began ==> ss[i].began[t] == ss[i].lastGrab
  {
    if i > 0 {
      SoleGrabber(ss, steps, i - 1, t);
    }
  }

  /** A frame does not release every waiter if a new grab gets the mutex first: the first thread
      goes back to waiting although the frame it asked for has arrived. The frame after that
      is wanted again. */
  lemma NewGrabTakesBackWakeup()
    ensures var s0: State<int> := State({}, {}, false, false, None, false, [], 0, map[]);
            var s1 := Next(s0, Grab(1));
            var s2 := Next(s1, Frame(10));
            var s3 := Next(s2, Grab(2));
            var s4 := Next(s3, Resume(1));
            && Initial(s0) && Enabled(s0, Grab(1)) && Enabled(s2, Grab(2)) && Enabled(s3, Resume(1))
            && s2.ready && 1 in s2.woken
            && 1 in s4.waiting && !s4.ready && s4.wantToGrab
            && Next(s4, Frame(11)).ready && Next(s4, Frame(11)).woken == {1, 2}
  {
    var s0: State<int> := State({}, {}, false, false, None, false, [], 0, map[]);
    var s3 := Next(Next(Next(s0, Grab(1)), Frame(10)), Grab(2));
    assert s3.woken == {1} && s3.waiting == {2};
  }

  // ---------------------------------------------------------------- the flags in place

  class PortUserdata<F> {
    var ready: bool
    var wantToGrab: bool
    var buffData: Option<F>
    const userCallback: bool

    /** The shared variables as a state of the protocol sees them. */
    ghost predicate Shows(s: State<F>)
      reads this
    {
      s.ready == ready && s.wantToGrab == wantToGrab && s.buffData == buffData && s.userCallback == userCallback
    }

    constructor (callback: bool, ghost s: State<F>)
      requires Initial(s) && s.userCallback == callback
      ensures Shows(s)
    {
      ready, wantToGrab, buffData := false, false, None;
      userCallback := callback;
    }

    /** The part of waitForFrame before the thread blocks. */
    method BeginWait(t: Thread, ghost s: State<F>)
      requires Shows(s) && Enabled(s, Grab(t))
      modifies this
      ensures Shows(Next(s, Grab(t)))
    {
      wantToGrab := true;
      ready := false;
    }

    /** The test of the wait loop after a wake-up. */
    method KeepWaiting(t: Thread, ghost s: State<F>) returns (again: bool)
      requires Inv(s) && Shows(s) && Enabled(s, Resume(t))
      ensures Shows(Next(s, Resume(t))) && (again <==> t in Next(s, Resume(t)).waiting || t in Next(s, Resume(t)).woken)
    {
      again := !ready;
    }

    /** The video callback; `image` is the frame, if the buffer holds any data. */
    method VideoBuffer(image: Option<F>, ghost s: State<F>)
      requires Shows(s)
      modifies this
      ensures Shows(Next(s, if image.Some? then Frame(image.value) else EmptyFrame))
    {
      var hasGrabbed := false;
      if image.Some? && (userCallback || wantToGrab) {
        buffData := image;
        wantToGrab := false;
        hasGrabbed := true;
      }
      if hasGrabbed {
        ready := true;
      }
    }
  }
}
