/**
 The start and shutdown handshake of hactor.c over one signal of hpair.c.

 The child thread runs the handler and then signals; the parent waits once in
 `hactor_new`, `w` times through `hactor_wait`, and once in `hactor_destroy`, which
 then frees the pipes and the pair. The handler may signal up to `m` times itself.
 A signal or wait is a compare-and-swap that is retried until it succeeds.
 */
module Actor {

  datatype Child = InHandler | Returned | Signalled | Gone

  /** Using(u): u calls of hactor_wait have completed. */
  datatype Parent = Starting | Using(u: nat) | Ending | Unpiped0 | Unpiped1 | Unpiped2 | Destroyed

  /**
   cell: signal[1] of the pair, from child to parent; sgnls, finals: signals completed
   by the handler and by `run`; waits: waits completed by the parent; fault: an access
   to a freed pipe or pair.
   */
  datatype State = State(cell: nat, child: Child, parent: Parent, sgnls: nat, finals: nat, waits: nat, fault: bool)

  datatype Action =
    | HandlerUse       // any send, receive, peek or wait by the handler
    | HandlerSgnl      // one compare-and-swap of hpipe_sgnl inside the handler
    | HandlerReturn
    | FinalSgnl        // one compare-and-swap of hpipe_sgnl in run
    | FreeShim
    | ParentUse        // any send, receive or signal by the parent
    | ParentWait       // one compare-and-swap of hpipe_wait
    | Destroy          // hactor_destroy is called
    | FreePipe | FreeChildPipe | FreePair

  /** Is the memory that the child's pipe operations touch already freed? */
  predicate Freed(p: Parent) {
    p == Unpiped2 || p == Destroyed
  }

  predicate Enabled(s: State, x: Action, m: nat, w: nat) {
    match x
    case HandlerUse => s.child == InHandler
    case HandlerSgnl => s.child == InHandler && s.sgnls < m
    case HandlerReturn => s.child == InHandler
    case FinalSgnl => s.child == Returned
    case FreeShim => s.child == Signalled
    case ParentUse => s.parent.Using?
    case ParentWait => s.parent == Starting || (s.parent.Using? && s.parent.u < w) || s.parent == Ending
    case Destroy => s.parent == Using(w)
    case FreePipe => s.parent == Unpiped0
    case FreeChildPipe => s.parent == Unpiped1
    case FreePair => s.parent == Unpiped2
  }

  /** A successful compare-and-swap 1 -> 0 moves the parent on. */
  function Waited(p: Parent): Parent {
    if p == Starting then Using(0) else if p.Using? then Using(p.u + 1) else Unpiped0
  }

  function Step(s: State, x: Action, m: nat, w: nat): State {
    if !Enabled(s, x, m, w) then s
    else if (x.HandlerUse? || x.HandlerSgnl? || x.FinalSgnl?) && Freed(s.parent) then s.(fault := true)
    else
      match x
      case HandlerUse => s
      case HandlerSgnl => if s.cell == 0 then s.(cell := 1, sgnls := s.sgnls + 1) else s
      case HandlerReturn => s.(child := Returned)
      case FinalSgnl => if s.cell == 0 then s.(cell := 1, finals := s.finals + 1, child := Signalled) else s
      case FreeShim => s.(child := Gone)
      case ParentUse => s
      case ParentWait => if s.cell == 1 then s.(cell := 0, waits := s.waits + 1, parent := Waited(s.parent)) else s
      case Destroy => s.(parent := Ending)
      case FreePipe => s.(parent := Unpiped1)
      case FreeChildPipe => s.(parent := Unpiped2)
      case FreePair => s.(parent := Destroyed)
  }

  /**
   A fault is an access by the child after its pipe was freed, and nothing else; before
   that every access has its effect.
   */
  lemma FaultExactlyWhen(s: State, x: Action, m: nat, w: nat)
    ensures Step(s, x, m, w).fault <==>
      s.fault || ((s.parent == Unpiped2 || s.parent == Destroyed) &&
                  ((s.child == InHandler && (x == HandlerUse || (x == HandlerSgnl && s.sgnls < m))) ||
                   (s.child == Returned && x == FinalSgnl)))
    ensures s.parent == Unpiped1 && x == FreeChildPipe ==> Step(s, x, m, w).parent == Unpiped2
  {
  }

  const INIT: State := State(0, InHandler, Starting, 0, 0, 0, false)

  function Run(s: State, xs: seq<Action>, m: nat, w: nat): State {
    if xs == [] then s else Step(Run(s, xs[..|xs| - 1], m, w), xs[|xs| - 1], m, w)
  }

  /** Waits completed when the parent is at p. */
  function WaitsAt(p: Parent, w: nat): nat {
    match p
    case Starting => 0
    case Using(u) => 1 + u
    case Ending => 1 + w
    case _ => 2 + w
  }

  /** The cell is a binary semaphore: signals minus waits, 0 or 1. */
  ghost predicate Semaphore(s: State, m: nat, w: nat) {
    && s.cell <= 1 && s.sgnls + s.finals == s.waits + s.cell
    && s.sgnls <= m && s.waits == WaitsAt(s.parent, w) && (s.parent.Using? ==> s.parent.u <= w)
    && s.finals == (if s.child == Signalled || s.child == Gone then 1 else 0)
  }

  lemma {:induction false} RunSemaphore(xs: seq<Action>, m: nat, w: nat)
    ensures Semaphore(Run(INIT, xs, m, w), m, w)
  {
    if xs != [] {
      RunSemaphore(xs[..|xs| - 1], m, w);
    }
  }

  /** The parent has passed the wait of hactor_destroy. */
  predicate Freeing(p: Parent) {
    p == Unpiped0 || p == Unpiped1 || Freed(p)
  }

  /**
   If the handler signals at most as often as the parent waits before destroy, then
   destroy frees only after the handler has returned and `run` has made its last
   access. With fewer signals than that it frees nothing at all, because its own wait
   never succeeds.
   */
  lemma {:induction false} SafeDestroy(xs: seq<Action>, m: nat, w: nat)
    requires m <= w + 1
    ensures var s := Run(INIT, xs, m, w); !s.fault && (Freeing(s.parent) ==> s.child == Signalled || s.child == Gone)
    ensures m <= w ==> !Freeing(Run(INIT, xs, m, w).parent)
  {
    RunSemaphore(xs, m, w);
    if xs != [] {
      RunSemaphore(xs[..|xs| - 1], m, w);
      SafeDestroy(xs[..|xs| - 1], m, w);
    }
  }

  lemma RunSnoc(s: State, xs: seq<Action>, x: Action, m: nat, w: nat)
    ensures Run(s, xs + [x], m, w) == Step(Run(s, xs, m, w), x, m, w)
  {
    assert (xs + [x])[..|xs|] == xs;
  }

  /** n signals of the handler, each taken by a wait of the parent. */
  lemma {:induction false} Rounds(n: nat, m: nat, w: nat) returns (xs: seq<Action>)
    requires 1 <= n <= w + 1 && n <= m
    ensures Run(INIT, xs, m, w) == State(0, InHandler, Using(n - 1), n, 0, n, false)
  {
    if n == 1 {
      xs := [];
    } else {
      xs := Rounds(n - 1, m, w);
    }
    RunSnoc(INIT, xs, HandlerSgnl, m, w);
    RunSnoc(INIT, xs + [HandlerSgnl], ParentWait, m, w);
    xs := xs + [HandlerSgnl] + [ParentWait];
  }

  /** One signal too many, and destroy can free the pair under a running handler. */
  lemma EarlyDestroy(m: nat, w: nat) returns (xs: seq<Action>)
    requires m >= w + 2
    ensures Run(INIT, xs, m, w).fault && Run(INIT, xs, m, w).child == InHandler
  {
    xs := Rounds(w + 1, m, w);
    hide Run;
    xs := Then(xs, Destroy, m, w);
    xs := Then(xs, HandlerSgnl, m, w);
    assert Run(INIT, xs, m, w) == State(1, InHandler, Ending, w + 2, 0, w + 1, false);
    xs := LastWait(xs, m, w);
    xs := Then(xs, HandlerUse, m, w);
  }

  /** The wait of destroy takes the handler's own signal, and everything is freed. */
  lemma LastWait(xs: seq<Action>, m: nat, w: nat) returns (ys: seq<Action>)
    requires Run(INIT, xs, m, w) == State(1, InHandler, Ending, w + 2, 0, w + 1, false)
    ensures Run(INIT, ys, m, w) == State(0, InHandler, Unpiped2, w + 2, 0, w + 2, false)
  {
    hide Run;
    ys := Then(xs, ParentWait, m, w);
    ys := Then(ys, FreePipe, m, w);
    ys := Then(ys, FreeChildPipe, m, w);
  }

  lemma Then(xs: seq<Action>, x: Action, m: nat, w: nat) returns (ys: seq<Action>)
    ensures Run(INIT, ys, m, w) == Step(Run(INIT, xs, m, w), x, m, w)
  {
    RunSnoc(INIT, xs, x, m, w);
    ys := xs + [x];
  }

  /** Destroy is safe in every run exactly when the handler's signals do not outnumber the earlier waits. */
  lemma SafeExactlyWhen(m: nat, w: nat)
    ensures (forall xs: seq<Action> :: !Run(INIT, xs, m, w).fault) <==> m <= w + 1
  {
    if m <= w + 1 {
      forall xs: seq<Action> ensures !Run(INIT, xs, m, w).fault {
        SafeDestroy(xs, m, w);
      }
    } else {
      var xs := EarlyDestroy(m, w);
    }
  }

  // ---------------------------------------------------------------- does destroy return?

  /**
   Once `run` has signalled, the wait of destroy can succeed exactly when the handler
   itself had signalled w + 1 times.
   */
  lemma DestroyWait(xs: seq<Action>, m: nat, w: nat)
    requires var s := Run(INIT, xs, m, w); s.parent == Ending && (s.child == Signalled || s.child == Gone)
    ensures var s := Run(INIT, xs, m, w); w <= s.sgnls <= w + 1 && (s.cell == 1 <==> s.sgnls == w + 1)
  {
    RunSemaphore(xs, m, w);
  }

  /** Nobody is left to signal, and the parent waits. */
  predicate Stuck(s: State) {
    s.parent == Ending && s.cell == 0 && (s.child == Signalled || s.child == Gone)
  }

  /** Otherwise the parent waits forever, whatever happens. */
  lemma {:induction false} BlockedForever(xs: seq<Action>, ys: seq<Action>, m: nat, w: nat)
    requires Stuck(Run(INIT, xs, m, w))
    ensures Stuck(Run(Run(INIT, xs, m, w), ys, m, w))
  {
    if ys != [] { BlockedForever(xs, ys[..|ys| - 1], m, w); }
  }

  /** The handler signals w + 1 times and returns, `run` signals, and destroy goes through. */
  lemma DestroyReturns(m: nat, w: nat) returns (xs: seq<Action>)
    requires m >= w + 1
    ensures Run(INIT, xs, m, w).parent == Destroyed
  {
    xs := Rounds(w + 1, m, w);
    hide Run;
    xs := Then(xs, Destroy, m, w);
    xs := Then(xs, HandlerReturn, m, w);
    xs := Then(xs, FinalSgnl, m, w);
    xs := Released(xs, m, w);
  }

  /** The signal of `run` lets the wait of destroy through. */
  lemma Released(xs: seq<Action>, m: nat, w: nat) returns (ys: seq<Action>)
    requires Run(INIT, xs, m, w) == State(1, Signalled, Ending, w + 1, 1, w + 1, false)
    ensures Run(INIT, ys, m, w).parent == Destroyed
  {
    hide Run;
    ys := Then(xs, ParentWait, m, w);
    ys := Then(ys, FreePipe, m, w);
    ys := Then(ys, FreeChildPipe, m, w);
    ys := Then(ys, FreePair, m, w);
  }

  /** Destroy can return exactly when the handler may signal at least as often as the parent waits before. */
  lemma ReturnsExactlyWhen(m: nat, w: nat)
    ensures (exists xs :: Run(INIT, xs, m, w).parent == Destroyed) <==> m >= w + 1
  {
    if m >= w + 1 {
      var xs := DestroyReturns(m, w);
    } else {
      forall xs ensures Run(INIT, xs, m, w).parent != Destroyed {
        SafeDestroy(xs, m, w);
      }
    }
  }

  /** So destroy can return, and is safe in every run, for exactly one number of signals. */
  lemma UsableExactlyWhen(m: nat, w: nat)
    ensures (exists xs :: Run(INIT, xs, m, w).parent == Destroyed) && (forall xs :: !Run(INIT, xs, m, w).fault)
       <==> m == w + 1
  {
    ReturnsExactlyWhen(m, w);
    SafeExactlyWhen(m, w);
  }
}
