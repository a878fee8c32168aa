/** How large the pipe must be for the collection to come to its end. */
module PipeSize {
  import opened Collection
  import opened CollectionInvariant
  import opened CollectionTheorems

  /** Some run leads to the end of the collection. */
  ghost predicate CanFinish(w: Setup, s: State) {
    exists steps :: Legal(w, s, steps) && After(w, s, steps).parent.Done?
  }

  ghost predicate AlwaysFinishes(w: Setup, n: nat) {
    forall s :: Reachable(w, n, s) ==> CanFinish(w, s)
  }

  /** The parent waits for a child to exit, the pipe is full, and no child is done sending. */
  ghost predicate Stuck(w: Setup, s: State) {
    && s.parent.Waiting? && |s.pipe| >= w.cap && s.children != []
    && forall c :: c in s.children ==> c.Running? || c.Ready? || (c.Sending? && c.sent < |Frame(w, c.report)|)
  }

  lemma {:induction false} StuckStep(w: Setup, s: State, step: Step)
    requires Stuck(w, s) && Enabled(w, s, step)
    ensures Stuck(w, Apply(w, s, step))
  {
    hide Frame, RunOp;
    assert s.children[0] in s.children;
    FrameNotEmpty(w);
  }

  lemma FrameNotEmpty(w: Setup)
    ensures forall r :: |Frame(w, r)| > 0
  {
  }

  lemma {:induction false} StuckForever(w: Setup, s: State, steps: seq<Step>)
    requires Stuck(w, s) && Legal(w, s, steps)
    ensures Stuck(w, After(w, s, steps))
    decreases |steps|
  {
    hide Stuck, Enabled, Apply;
    if steps != [] {
      StuckStep(w, s, steps[0]);
      StuckForever(w, Apply(w, s, steps[0]), steps[1..]);
    }
  }

  // ----- A run into the impasse

  ghost predicate Quiet(s: State) {
    s.children != [] && s.pipe == [] && s.sem == 1 && forall c :: c in s.children ==> c.Running?
  }

  lemma {:induction false} ParentWaits(w: Setup, n: nat, s: State) returns (t: State)
    requires Reachable(w, n, s) && Quiet(s) && s.parent.Busy?
    ensures Reachable(w, n, t) && Quiet(t) && t.parent.Waiting?
    decreases if s.parent.Busy? then |s.parent.todo| else 0
  {
    hide Reachable, RunParentOp;
    if s.parent.todo == [] {
      ReachStep(w, n, s, Sync);
      t := Apply(w, s, Sync);
    } else {
      ReachStep(w, n, s, ParentOp(0));
      t := ParentWaits(w, n, Apply(w, s, ParentOp(0)));
    }
  }

  lemma {:induction false} ChildDone(w: Setup, n: nat, s: State) returns (t: State)
    requires Reachable(w, n, s) && Quiet(s) && s.parent.Waiting? && s.children[0].Running?
    ensures Reachable(w, n, t) && Quiet(t) && t.parent.Waiting? && t.children[0].Running? && t.children[0].me.todo == []
    decreases |s.children[0].me.todo|
  {
    hide Reachable;
    if s.children[0].me.todo == [] {
      t := s;
    } else {
      ReachStep(w, n, s, ChildOp(0, 0));
      t := ChildDone(w, n, Apply(w, s, ChildOp(0, 0)));
    }
  }

  /** Child 0 holds the lock and has written what is in the pipe. */
  ghost predicate Filling(w: Setup, s: State) {
    && s.parent.Waiting? && s.children != [] && |s.pipe| <= w.cap
    && s.children[0].Sending? && s.children[0].sent == |s.pipe|
    && forall i :: 0 < i < |s.children| ==> s.children[i].Running?
  }

  lemma {:induction false} ChildLocks(w: Setup, n: nat, s: State) returns (t: State)
    requires Reachable(w, n, s) && Quiet(s) && s.parent.Waiting? && w.cap > 0
    requires s.children[0].Running? && s.children[0].me.todo == []
    ensures Reachable(w, n, t) && Filling(w, t)
  {
    hide Reachable;
    ReachStep(w, n, s, Poll(0));
    var s1 := Apply(w, s, Poll(0));
    ReachStep(w, n, s1, Lock(0));
    t := Apply(w, s1, Lock(0));
  }

  lemma {:induction false} ChildFillsPipe(w: Setup, n: nat, s: State) returns (t: State)
    requires Reachable(w, n, s) && Filling(w, s) && GoodProgram(w) && w.cap < FrameLength(w)
    ensures Reachable(w, n, t) && Stuck(w, t)
    decreases w.cap - |s.pipe|
  {
    hide Reachable, Frame, GoodProgram;
    FrameSize(w, s.children[0].report);
    if |s.pipe| == w.cap {
      t := s;
    } else {
      ReachStep(w, n, s, WriteByte(0));
      t := ChildFillsPipe(w, n, Apply(w, s, WriteByte(0)));
    }
  }

  lemma {:induction false} SmallPipeSticks(w: Setup, n: nat) returns (t: State)
    requires GoodProgram(w) && n > 0 && w.cap < FrameLength(w)
    ensures Reachable(w, n, t) && Stuck(w, t)
  {
    hide Reachable, GoodProgram;
    ReachInitial(w, n);
    t := ParentWaits(w, n, Initial(w, n));
    assert t.children[0] in t.children;
    t := ChildDone(w, n, t);
    if w.cap > 0 {
      t := ChildLocks(w, n, t);
      t := ChildFillsPipe(w, n, t);
    }
  }

  /** The collection can be completed from every reachable state if and only if the pipe holds one
      whole frame: otherwise the child with the lock can block while the parent waits for it to exit. */
  lemma {:induction false} FinishesIffPipeHoldsFrame(w: Setup, n: nat)
    requires GoodProgram(w) && n > 0
    ensures AlwaysFinishes(w, n) <==> w.cap >= FrameLength(w)
  {
    hide Reachable, GoodProgram, Inv, Stuck;
    if w.cap >= FrameLength(w) {
      forall s | Reachable(w, n, s) ensures CanFinish(w, s) {
        ReachableInv(w, n, s);
        var steps := CanComplete(w, s);
      }
    } else {
      var t := SmallPipeSticks(w, n);
      if CanFinish(w, t) {
        var steps :| Legal(w, t, steps) && After(w, t, steps).parent.Done?;
        StuckForever(w, t, steps);
        StuckIsNotDone(w, After(w, t, steps));
      }
    }
  }

  lemma StuckIsNotDone(w: Setup, s: State)
    requires Stuck(w, s)
    ensures !s.parent.Done?
  {
  }
}
