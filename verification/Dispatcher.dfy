/**
 * Sending pool shares with a bounded number in flight and a bounded backlog
 * (createShareDispatcher and runShareSubmit, src/minerd/poolClient.ts 283-462),
 * as a machine over its events. A settled submission's `.then` and `.finally`
 * are steps of their own, between which anything else may happen.
 */
module Dispatcher {
  import opened Binary

  /** A solved nonce with the identity it was solved under. */
  datatype Share = Share(nonce: nat, job: string, worker: string, epoch: nat)

  /** A launched submission: its POST is live, or it has settled, or its `.then` has run too. */
  datatype Stage = Posting | Settled(reached: bool) | Marked
  datatype Post = Post(share: Share, stage: Stage)

  datatype CapPair = CapPair(pending: nat, queue: nat)
  type Caps = c: CapPair | c.pending >= 1 && c.queue >= 1 witness CapPair(1, 1)

  datatype Disp = Disp(
    jobId: Option<string>,
    submitted: set<nat>,
    inFlight: set<nat>,
    queued: set<nat>,
    queue: seq<Share>,
    // The outside: the identity epoch, submissions under way, final verdicts, job identities ever used.
    epoch: nat,
    posts: seq<Post>,
    terminals: set<(nat, string, nat)>,
    seen: set<(string, nat)>,
    // Since the last change of identity: what was launched, and what was accepted and not dropped, in order.
    launched: seq<Share>,
    kept: seq<Share>)

  const EMPTY := Disp(None, {}, {}, {}, [], 0, [], {}, {}, [], [])

  function Key(sh: Share): (nat, string, nat) { (sh.nonce, sh.job, sh.epoch) }

  predicate Current(s: Disp, sh: Share) { s.jobId == Some(sh.job) && s.epoch == sh.epoch }

  // ------------------------------------------------------------------
  // The steps as functions
  // ------------------------------------------------------------------

  function Wiped(s: Disp): Disp {
    s.(submitted := {}, inFlight := {}, queued := {}, queue := [], launched := [], kept := [])
  }

  function Launched(s: Disp, sh: Share): Disp {
    s.(inFlight := s.inFlight + {sh.nonce}, posts := s.posts + [Post(sh, Posting)], launched := s.launched + [sh])
  }

  function Dequeued(s: Disp): Disp
    requires s.queue != []
  {
    s.(queue := s.queue[1..], queued := s.queued - {s.queue[0].nonce})
  }

  function Drained(s: Disp, cap: nat): Disp
    decreases |s.queue|
  {
    if |s.inFlight| >= cap || s.queue == [] then s
    else
      var sh, s' := s.queue[0], Dequeued(s);
      if !Current(s, sh) || sh.nonce in s.submitted || sh.nonce in s.inFlight then Drained(s', cap)
      else Drained(Launched(s', sh), cap)
  }

  function Offered(s: Disp, caps: Caps, nonce: nat, job: string, worker: string): Disp {
    var sh := Share(nonce, job, worker, s.epoch);
    var s1 := if s.jobId == Some(job) then s else Wiped(s).(jobId := Some(job), seen := s.seen + {(job, s.epoch)});
    if nonce in s1.submitted || nonce in s1.inFlight || nonce in s1.queued then s1
    else if |s1.inFlight| >= caps.pending then
      var s2 := if |s1.queue| >= caps.queue then DropOldest(s1) else s1;
      s2.(queue := s2.queue + [sh], queued := s2.queued + {nonce}, kept := s2.kept + [sh])
    else Launched(s1, sh).(kept := s1.kept + [sh])
  }

  function DropOldest(s: Disp): Disp
    requires s.queue != []
  {
    var n := |s.launched|;
    Dequeued(s).(kept := if n < |s.kept| then s.kept[..n] + s.kept[n + 1..] else s.kept)
  }

  function WithStage(s: Disp, i: nat, stage: Stage): Disp
    requires i < |s.posts|
  {
    s.(posts := s.posts[i := Post(s.posts[i].share, stage)])
  }

  datatype Event =
    | Offer(nonce: nat, job: string, worker: string)
    | Settle(i: nat, reached: bool)   // the submission returned, or threw (then not reached)
    | Then(i: nat)
    | Finally(i: nat)
    | Reregister

  /** Offers carry the epoch of the moment; a job id left behind does not come back within its epoch. */
  predicate Enabled(s: Disp, e: Event) {
    match e
    case Offer(_, job, _) => s.jobId == Some(job) || (job, s.epoch) !in s.seen
    case Settle(i, _) => i < |s.posts| && s.posts[i].stage.Posting?
    case Then(i) => i < |s.posts| && s.posts[i].stage.Settled?
    case Finally(i) => i < |s.posts| && s.posts[i].stage.Marked?
    case Reregister => true
  }

  function Next(s: Disp, caps: Caps, e: Event): Disp
    requires Enabled(s, e)
  {
    match e
    case Offer(nonce, job, worker) => Offered(s, caps, nonce, job, worker)
    case Settle(i, reached) =>
      WithStage(s, i, Settled(reached)).(terminals := s.terminals + if reached then {Key(s.posts[i].share)} else {})
    case Then(i) =>
      var sh := s.posts[i].share;
      var mark := s.posts[i].stage.reached && Current(s, sh);
      WithStage(s, i, Marked).(submitted := s.submitted + if mark then {sh.nonce} else {})
    case Finally(i) => Drained(Finished(s, i), caps.pending)
    case Reregister => Wiped(s).(epoch := s.epoch + 1, jobId := None)
  }

  function Finished(s: Disp, i: nat): Disp
    requires i < |s.posts|
  {
    var sh := s.posts[i].share;
    s.(posts := s.posts[..i] + s.posts[i + 1..], inFlight := s.inFlight - if Current(s, sh) then {sh.nonce} else {})
  }

  // ------------------------------------------------------------------
  // The dispatcher
  // ------------------------------------------------------------------

  class ShareDispatcher {
    const caps: Caps
    var submitJobId: Option<string>
    var submitted: set<nat>
    var inFlight: set<nat>
    var queued: set<nat>
    var queue: seq<Share>
    var epoch: nat
    var posts: seq<Post>
    ghost var terminals: set<(nat, string, nat)>
    ghost var seen: set<(string, nat)>
    ghost var launched: seq<Share>
    ghost var kept: seq<Share>

    ghost function View(): Disp
      reads this
    {
      Disp(submitJobId, submitted, inFlight, queued, queue, epoch, posts, terminals, seen, launched, kept)
    }

    constructor (caps: Caps)
      ensures View() == EMPTY && this.caps == caps
    {
      this.caps := caps;
      submitJobId, submitted, inFlight, queued, queue, epoch, posts := None, {}, {}, {}, [], 0, [];
      terminals, seen, launched, kept := {}, {}, [], [];
    }

    method Wipe()
      modifies this
      ensures View() == Wiped(old(View()))
    {
      submitted, inFlight, queued, queue := {}, {}, {}, [];
      launched, kept := [], [];
    }

    method Launch(sh: Share)
      modifies this
      ensures View() == Launched(old(View()), sh)
    {
      inFlight := inFlight + {sh.nonce};
      posts := posts + [Post(sh, Posting)];
      launched := launched + [sh];
    }

    method Drain()
      modifies this
      ensures View() == Drained(old(View()), caps.pending)
    {
      while |inFlight| < caps.pending && |queue| > 0
        invariant Drained(View(), caps.pending) == Drained(old(View()), caps.pending)
        decreases |queue|
      {
        var item := queue[0];
        queue := queue[1..];
        queued := queued - {item.nonce};
        if submitJobId != Some(item.job) || item.epoch != epoch {
          continue;
        }
        if item.nonce in submitted || item.nonce in inFlight {
          continue;
        }
        Launch(item);
      }
    }

    method DoOffer(nonce: nat, job: string, worker: string)
      modifies this
      ensures View() == Offered(old(View()), caps, nonce, job, worker)
    {
      if submitJobId != Some(job) {
        submitJobId := Some(job);
        seen := seen + {(job, epoch)};
        Wipe();
      }
      if nonce in submitted || nonce in inFlight || nonce in queued {
        return;
      }
      var sh := Share(nonce, job, worker, epoch);
      if |inFlight| >= caps.pending {
        if |queue| >= caps.queue {
          kept := if |launched| < |kept| then kept[..|launched|] + kept[|launched| + 1..] else kept;
          queued := queued - {queue[0].nonce};
          queue := queue[1..];
        }
        queue := queue + [sh];
        queued := queued + {nonce};
        kept := kept + [sh];
        return;
      }
      Launch(sh);
      kept := kept + [sh];
    }

    method OnSettled(i: nat, reached: bool)
      requires Enabled(View(), Settle(i, reached))
      modifies this
      ensures View() == Next(old(View()), caps, Settle(i, reached))
    {
      terminals := terminals + if reached then {Key(posts[i].share)} else {};
      posts := posts[i := Post(posts[i].share, Settled(reached))];
    }

    /** `.then`: the nonce is durable only on a final verdict under an identity that still stands. */
    method OnThen(i: nat)
      requires Enabled(View(), Then(i))
      modifies this
      ensures View() == Next(old(View()), caps, Then(i))
    {
      var sh := posts[i].share;
      if posts[i].stage.reached && submitJobId == Some(sh.job) && epoch == sh.epoch {
        submitted := submitted + {sh.nonce};
      }
      posts := posts[i := Post(sh, Marked)];
    }

    /** `.finally` */
    method OnFinally(i: nat)
      requires Enabled(View(), Finally(i))
      modifies this
      ensures View() == Next(old(View()), caps, Finally(i))
    {
      var sh := posts[i].share;
      posts := posts[..i] + posts[i + 1..];
      if submitJobId == Some(sh.job) && epoch == sh.epoch {
        inFlight := inFlight - {sh.nonce};
      }
      assert View() == Finished(old(View()), i);
      Drain();
    }

    /** The epoch moves on and `clear` follows in the same step. */
    method OnReregister()
      modifies this
      ensures View() == Next(old(View()), caps, Reregister)
    {
      epoch := epoch + 1;
      submitJobId := None;
      Wipe();
    }
  }

  // ------------------------------------------------------------------
  // Invariants
  // ------------------------------------------------------------------

  /** Both caps hold, and nothing waits unless the cap in flight is reached. */
  ghost predicate Bounded(s: Disp, caps: Caps) {
    |s.inFlight| <= caps.pending && |s.queue| <= caps.queue && (s.queue != [] ==> |s.inFlight| == caps.pending)
  }

  /** What waits is distinct, of the current identity, and neither submitted nor in flight. */
  ghost predicate QueueOk(s: Disp) {
    && (forall k :: 0 <= k < |s.queue| ==> s.queue[k].nonce in s.queued)
    && (forall n :: n in s.queued ==> exists k :: 0 <= k < |s.queue| && s.queue[k].nonce == n)
    && (forall j, k :: 0 <= j < k < |s.queue| ==> s.queue[j].nonce != s.queue[k].nonce)
    && (forall k :: 0 <= k < |s.queue| ==>
          Current(s, s.queue[k]) && s.queue[k].nonce !in s.submitted && s.queue[k].nonce !in s.inFlight)
  }

  /** At most one submission per nonce, job and epoch; the current ones are in flight. */
  ghost predicate PostsOk(s: Disp) {
    && (forall j, k :: 0 <= j < k < |s.posts| ==> Key(s.posts[j].share) != Key(s.posts[k].share))
    && (forall k :: 0 <= k < |s.posts| && Current(s, s.posts[k].share) ==> s.posts[k].share.nonce in s.inFlight)
  }

  ghost predicate CurrentKey(s: Disp, t: (nat, string, nat)) { s.jobId == Some(t.1) && s.epoch == t.2 }

  /**
   * No POST is live for a nonce that has its final verdict; and a final verdict of
   * the current identity is remembered, or about to be by a `.then` still to run.
   */
  ghost predicate VerdictsFinal(s: Disp) {
    && (forall k :: 0 <= k < |s.posts| && s.posts[k].stage.Posting? ==> Key(s.posts[k].share) !in s.terminals)
    && (forall t :: t in s.terminals && CurrentKey(s, t) && t.0 !in s.submitted ==> Recording(s, t))
  }

  ghost predicate Recording(s: Disp, t: (nat, string, nat)) {
    exists k :: 0 <= k < |s.posts| && Key(s.posts[k].share) == t && s.posts[k].stage == Settled(true)
  }

  /** Identities used so far. */
  ghost predicate Identities(s: Disp) {
    && (forall k :: 0 <= k < |s.posts| ==> (s.posts[k].share.job, s.posts[k].share.epoch) in s.seen)
    && (forall t :: t in s.terminals ==> (t.1, t.2) in s.seen)
    && (s.jobId.Some? ==> (s.jobId.value, s.epoch) in s.seen)
    && (forall p :: p in s.seen ==> p.1 <= s.epoch)
  }

  /** Launches happen in the order of acceptance: what was kept is what was launched and then what waits. */
  ghost predicate InOrder(s: Disp) { s.kept == s.launched + s.queue }

  ghost predicate Consistent(s: Disp) {
    QueueOk(s) && PostsOk(s) && VerdictsFinal(s) && Identities(s) && InOrder(s)
  }

  ghost predicate Inv(s: Disp, caps: Caps) { Bounded(s, caps) && Consistent(s) }

  /** Only a nonce not being sent and without a verdict under this identity is ever launched. */
  lemma LaunchIsNew(s: Disp, sh: Share)
    requires PostsOk(s) && VerdictsFinal(s) && Current(s, sh) && sh.nonce !in s.submitted && sh.nonce !in s.inFlight
    ensures Key(sh) !in s.terminals
    ensures forall k :: 0 <= k < |s.posts| ==> Key(s.posts[k].share) != Key(sh)
  {
    assert CurrentKey(s, Key(sh));
    assert Key(sh) in s.terminals ==> Recording(s, Key(sh));
  }

  lemma LaunchConsistent(s: Disp, sh: Share)
    requires QueueOk(s) && PostsOk(s) && VerdictsFinal(s) && Identities(s) && Current(s, sh)
    requires sh.nonce !in s.submitted && sh.nonce !in s.inFlight && sh.nonce !in s.queued
    ensures QueueOk(Launched(s, sh)) && PostsOk(Launched(s, sh))
    ensures VerdictsFinal(Launched(s, sh)) && Identities(Launched(s, sh))
  {
    hide QueueOk, PostsOk, VerdictsFinal, Identities;
    LaunchIsNew(s, sh);
    LaunchPosts(s, sh);
    LaunchQueue(s, sh);
    LaunchVerdicts(s, sh);
  }

  lemma LaunchQueue(s: Disp, sh: Share)
    requires QueueOk(s) && sh.nonce !in s.queued
    ensures QueueOk(Launched(s, sh))
  {
    assert forall x :: Current(Launched(s, sh), x) == Current(s, x);
  }

  lemma LaunchPosts(s: Disp, sh: Share)
    requires PostsOk(s) && Identities(s) && Current(s, sh)
    requires forall k :: 0 <= k < |s.posts| ==> Key(s.posts[k].share) != Key(sh)
    ensures PostsOk(Launched(s, sh)) && Identities(Launched(s, sh))
  {
  }

  lemma LaunchVerdicts(s: Disp, sh: Share)
    requires VerdictsFinal(s) && Key(sh) !in s.terminals
    ensures VerdictsFinal(Launched(s, sh))
  {
    var u := Launched(s, sh);
    forall t | t in u.terminals && CurrentKey(u, t) && t.0 !in u.submitted ensures Recording(u, t) {
      assert CurrentKey(s, t) && Recording(s, t);
      var k :| 0 <= k < |s.posts| && Key(s.posts[k].share) == t && s.posts[k].stage == Settled(true);
      assert u.posts[k] == s.posts[k];
    }
  }

  lemma DequeueQueue(s: Disp)
    requires QueueOk(s) && s.queue != []
    ensures QueueOk(Dequeued(s)) && s.queue[0].nonce !in Dequeued(s).queued
  {
    var u := Dequeued(s);
    forall n | n in u.queued ensures exists k :: 0 <= k < |u.queue| && u.queue[k].nonce == n {
      var k :| 0 <= k < |s.queue| && s.queue[k].nonce == n;
      assert u.queue[k - 1].nonce == n;
    }
    forall k | 0 <= k < |u.queue| ensures u.queue[k] == s.queue[k + 1] && Current(u, u.queue[k]) {
      assert Current(s, s.queue[k + 1]);
    }
  }

  /** Draining launches from the front until the cap is reached or nothing waits; it never skips. */
  lemma {:induction false} DrainConsistent(s: Disp, caps: Caps)
    requires Consistent(s) && |s.inFlight| <= caps.pending && |s.queue| <= caps.queue
    ensures Inv(Drained(s, caps.pending), caps)
    ensures Drained(s, caps.pending).kept == s.kept && s.launched <= Drained(s, caps.pending).launched
    decreases |s.queue|
  {
    hide QueueOk, PostsOk, VerdictsFinal, Identities;
    if |s.inFlight| < caps.pending && s.queue != [] {
      var sh, s' := s.queue[0], Dequeued(s);
      DequeueQueue(s);
      FrontLaunchable(s);
      DequeuedRest(s);
      LaunchConsistent(s', sh);
      var u := Launched(s', sh);
      assert u.launched + u.queue == s.launched + s.queue by { assert s.queue == [sh] + s.queue[1..]; }
      DrainConsistent(u, caps);
    }
  }

  lemma FrontLaunchable(s: Disp)
    requires QueueOk(s) && s.queue != []
    ensures Current(s, s.queue[0]) && s.queue[0].nonce !in s.submitted && s.queue[0].nonce !in s.inFlight
  {
  }

  lemma DequeuedRest(s: Disp)
    requires s.queue != []
    ensures PostsOk(s) ==> PostsOk(Dequeued(s))
    ensures VerdictsFinal(s) ==> VerdictsFinal(Dequeued(s))
    ensures Identities(s) ==> Identities(Dequeued(s))
    ensures Current(s, s.queue[0]) ==> Current(Dequeued(s), s.queue[0])
  {
    var u := Dequeued(s);
    assert forall k :: 0 <= k < |s.posts| ==> Current(u, s.posts[k].share) == Current(s, s.posts[k].share);
    assert forall t :: CurrentKey(u, t) == CurrentKey(s, t) && Recording(u, t) == Recording(s, t);
  }

  // ------------------------------------------------------------------
  // Each event keeps them
  // ------------------------------------------------------------------

  /** A change of identity starts over: nothing of the new identity has been sent yet. */
  lemma NewIdentity(s: Disp, job: Option<string>, epoch: nat)
    requires PostsOk(s) && VerdictsFinal(s) && Identities(s) && s.epoch <= epoch
    requires job.None? || (job.value, epoch) !in s.seen
    ensures var now := if job.Some? then {(job.value, epoch)} else {};
            var u := Wiped(s).(jobId := job, epoch := epoch, seen := s.seen + now);
            Consistent(u) && u.inFlight == {} && u.queue == []
  {
    var u := Wiped(s).(jobId := job, epoch := epoch, seen := s.seen + if job.Some? then {(job.value, epoch)} else {});
    forall k | 0 <= k < |u.posts| ensures !Current(u, u.posts[k].share) {
      assert (s.posts[k].share.job, s.posts[k].share.epoch) in s.seen;
    }
    forall t | t in u.terminals ensures !CurrentKey(u, t) {
      assert (t.1, t.2) in s.seen;
    }
  }

  lemma OfferInv(s: Disp, caps: Caps, nonce: nat, job: string, worker: string)
    requires Inv(s, caps) && Enabled(s, Offer(nonce, job, worker))
    ensures Inv(Offered(s, caps, nonce, job, worker), caps)
  {
    hide QueueOk, PostsOk, VerdictsFinal, Identities;
    var sh := Share(nonce, job, worker, s.epoch);
    if s.jobId == Some(job) {
      AcceptInv(s, caps, sh);
    } else {
      NewIdentity(s, Some(job), s.epoch);
      AcceptInv(Wiped(s).(jobId := Some(job), seen := s.seen + {(job, s.epoch)}), caps, sh);
    }
  }

  /** What an offer does once its job is the current one. */
  function Accepted(s: Disp, caps: Caps, sh: Share): Disp {
    if sh.nonce in s.submitted || sh.nonce in s.inFlight || sh.nonce in s.queued then s
    else if |s.inFlight| >= caps.pending then Enqueued(if |s.queue| >= caps.queue then DropOldest(s) else s, sh)
    else Launched(s, sh).(kept := s.kept + [sh])
  }

  function Enqueued(s: Disp, sh: Share): Disp {
    s.(queue := s.queue + [sh], queued := s.queued + {sh.nonce}, kept := s.kept + [sh])
  }

  lemma AcceptInv(s: Disp, caps: Caps, sh: Share)
    requires Inv(s, caps) && Current(s, sh)
    ensures Inv(Accepted(s, caps, sh), caps)
  {
    hide QueueOk, PostsOk, VerdictsFinal, Identities;
    if sh.nonce !in s.submitted && sh.nonce !in s.inFlight && sh.nonce !in s.queued {
      if |s.inFlight| < caps.pending {
        LaunchConsistent(s, sh);
        KeptIrrelevant(Launched(s, sh), s.kept + [sh]);
      } else if |s.queue| < caps.queue {
        EnqueueConsistent(s, sh);
      } else {
        DequeueQueue(s);
        DequeuedRest(s);
        DropOldestOrder(s);
        KeptIrrelevant(Dequeued(s), DropOldest(s).kept);
        EnqueueConsistent(DropOldest(s), sh);
      }
    }
  }

  lemma KeptIrrelevant(s: Disp, kept: seq<Share>)
    ensures QueueOk(s) ==> QueueOk(s.(kept := kept))
    ensures PostsOk(s) ==> PostsOk(s.(kept := kept))
    ensures VerdictsFinal(s) ==> VerdictsFinal(s.(kept := kept))
    ensures Identities(s) ==> Identities(s.(kept := kept))
  {
    var u := s.(kept := kept);
    assert forall sh :: Current(u, sh) == Current(s, sh);
    assert forall t :: CurrentKey(u, t) == CurrentKey(s, t) && Recording(u, t) == Recording(s, t);
  }

  /** Only the oldest waiting share is given up. */
  lemma DropOldestOrder(s: Disp)
    requires InOrder(s) && s.queue != []
    ensures InOrder(DropOldest(s)) && s.kept[|s.launched|] == s.queue[0]
  {
    assert s.queue == [s.queue[0]] + s.queue[1..];
    assert s.kept[..|s.launched|] == s.launched && s.kept[|s.launched| + 1..] == s.queue[1..];
  }

  lemma EnqueueConsistent(s: Disp, sh: Share)
    requires Consistent(s) && Current(s, sh)
    requires sh.nonce !in s.submitted && sh.nonce !in s.inFlight && sh.nonce !in s.queued
    ensures Consistent(Enqueued(s, sh))
  {
    hide QueueOk, PostsOk, VerdictsFinal, Identities;
    EnqueueQueue(s, sh);
    EnqueueRest(s, sh);
    assert s.launched + s.queue + [sh] == s.launched + (s.queue + [sh]);
  }

  lemma EnqueueQueue(s: Disp, sh: Share)
    requires QueueOk(s) && Current(s, sh)
    requires sh.nonce !in s.submitted && sh.nonce !in s.inFlight && sh.nonce !in s.queued
    ensures QueueOk(Enqueued(s, sh))
  {
    var u := Enqueued(s, sh);
    assert forall x :: Current(u, x) == Current(s, x);
    forall n | n in u.queued ensures exists k :: 0 <= k < |u.queue| && u.queue[k].nonce == n {
      if n == sh.nonce {
        assert u.queue[|s.queue|].nonce == n;
      } else {
        var k :| 0 <= k < |s.queue| && s.queue[k].nonce == n;
        assert u.queue[k].nonce == n;
      }
    }
  }

  lemma EnqueueRest(s: Disp, sh: Share)
    ensures PostsOk(s) ==> PostsOk(Enqueued(s, sh))
    ensures VerdictsFinal(s) ==> VerdictsFinal(Enqueued(s, sh))
    ensures Identities(s) ==> Identities(Enqueued(s, sh))
  {
    var u := Enqueued(s, sh);
    assert forall x :: Current(u, x) == Current(s, x);
    assert forall t :: CurrentKey(u, t) == CurrentKey(s, t) && Recording(u, t) == Recording(s, t);
  }

  lemma SettleInv(s: Disp, caps: Caps, i: nat, reached: bool)
    requires Inv(s, caps) && Enabled(s, Settle(i, reached))
    ensures Inv(Next(s, caps, Settle(i, reached)), caps)
  {
    var u, key := Next(s, caps, Settle(i, reached)), Key(s.posts[i].share);
    assert forall x :: Current(u, x) == Current(s, x);
    assert u.posts[i].stage == Settled(reached);
    forall t | t in u.terminals && CurrentKey(u, t) && t.0 !in u.submitted ensures Recording(u, t) {
      if t in s.terminals {
        assert CurrentKey(s, t) && Recording(s, t);
        var k :| 0 <= k < |s.posts| && Key(s.posts[k].share) == t && s.posts[k].stage == Settled(true);
        assert u.posts[k] == s.posts[k];
      } else {
        assert u.posts[i].share == s.posts[i].share;
      }
    }
  }

  lemma ThenInv(s: Disp, caps: Caps, i: nat)
    requires Inv(s, caps) && Enabled(s, Then(i))
    ensures Inv(Next(s, caps, Then(i)), caps)
  {
    var u, sh := Next(s, caps, Then(i)), s.posts[i].share;
    assert forall x :: Current(u, x) == Current(s, x);
    forall t | t in u.terminals && CurrentKey(u, t) && t.0 !in u.submitted ensures Recording(u, t) {
      assert CurrentKey(s, t) && Recording(s, t);
      var k :| 0 <= k < |s.posts| && Key(s.posts[k].share) == t && s.posts[k].stage == Settled(true);
      assert k != i;
      assert u.posts[k] == s.posts[k];
    }
  }

  lemma FinishedConsistent(s: Disp, i: nat)
    requires Consistent(s) && i < |s.posts| && s.posts[i].stage.Marked?
    ensures Consistent(Finished(s, i)) && |Finished(s, i).inFlight| <= |s.inFlight|
  {
    hide QueueOk, PostsOk, VerdictsFinal, Identities;
    FinishedQueue(s, i);
    FinishedPosts(s, i);
    FinishedVerdicts(s, i);
    FewerInFlight(s.inFlight, if Current(s, s.posts[i].share) then {s.posts[i].share.nonce} else {});
  }

  lemma FinishedQueue(s: Disp, i: nat)
    requires QueueOk(s) && i < |s.posts|
    ensures QueueOk(Finished(s, i))
  {
  }

  lemma FinishedPosts(s: Disp, i: nat)
    requires PostsOk(s) && Identities(s) && i < |s.posts|
    ensures PostsOk(Finished(s, i)) && Identities(Finished(s, i))
  {
    var u, sh := Finished(s, i), s.posts[i].share;
    assert forall k :: 0 <= k < |u.posts| ==> u.posts[k] == s.posts[if k < i then k else k + 1];
    forall k | 0 <= k < |u.posts| && Current(u, u.posts[k].share) ensures u.posts[k].share.nonce in u.inFlight {
      var j := if k < i then k else k + 1;
      assert Key(s.posts[j].share) != Key(sh);
    }
  }

  lemma FinishedVerdicts(s: Disp, i: nat)
    requires VerdictsFinal(s) && i < |s.posts| && s.posts[i].stage.Marked?
    ensures VerdictsFinal(Finished(s, i))
  {
    var u := Finished(s, i);
    assert forall k :: 0 <= k < |u.posts| ==> u.posts[k] == s.posts[if k < i then k else k + 1];
    forall t | t in u.terminals && CurrentKey(u, t) && t.0 !in u.submitted ensures Recording(u, t) {
      assert CurrentKey(s, t) && Recording(s, t);
      var k :| 0 <= k < |s.posts| && Key(s.posts[k].share) == t && s.posts[k].stage == Settled(true);
      assert k != i;
      assert u.posts[if k < i then k else k - 1] == s.posts[k];
    }
  }

  lemma FewerInFlight(a: set<nat>, b: set<nat>)
    ensures |a - b| <= |a|
  {
    assert a == (a - b) + (a * b);
  }

  lemma NextInv(s: Disp, caps: Caps, e: Event)
    requires Inv(s, caps) && Enabled(s, e)
    ensures Inv(Next(s, caps, e), caps)
  {
    hide Inv, Consistent, QueueOk, PostsOk, VerdictsFinal, Identities, Offered, Drained;
    match e
    case Offer(nonce, job, worker) => OfferInv(s, caps, nonce, job, worker);
    case Settle(i, reached) => SettleInv(s, caps, i, reached);
    case Then(i) => ThenInv(s, caps, i);
    case Finally(i) =>
      InvParts(s, caps);
      FinishedConsistent(s, i);
      DrainConsistent(Finished(s, i), caps);
    case Reregister =>
      ReregisterInv(s, caps);
  }

  lemma InvParts(s: Disp, caps: Caps)
    requires Inv(s, caps)
    ensures Consistent(s) && |s.inFlight| <= caps.pending && |s.queue| <= caps.queue
  {
  }

  lemma ReregisterInv(s: Disp, caps: Caps)
    requires Inv(s, caps)
    ensures Inv(Next(s, caps, Reregister), caps)
  {
    hide QueueOk, PostsOk, VerdictsFinal, Identities;
    NewIdentity(s, None, s.epoch + 1);
    assert s.seen + {} == s.seen;
  }

  /** Where a run leads; an event that cannot happen then is skipped. */
  function After(caps: Caps, events: seq<Event>): Disp {
    if events == [] then EMPTY
    else
      var s := After(caps, events[..|events| - 1]);
      if Enabled(s, events[|events| - 1]) then Next(s, caps, events[|events| - 1]) else s
  }

  /**
   * In every state of every run: the caps hold, a backlog means the cap in flight
   * is reached, each nonce of a job and epoch has at most one submission, no POST
   * is live for a nonce with a final verdict, and launches are first in first out.
   */
  lemma {:induction false} AlwaysConsistent(caps: Caps, events: seq<Event>)
    ensures Inv(After(caps, events), caps)
    decreases |events|
  {
    hide Inv, Next;
    if events == [] {
      EmptyInv(caps);
    } else {
      AlwaysConsistent(caps, events[..|events| - 1]);
      if Enabled(After(caps, events[..|events| - 1]), events[|events| - 1]) {
        NextInv(After(caps, events[..|events| - 1]), caps, events[|events| - 1]);
      }
    }
  }

  lemma EmptyInv(caps: Caps)
    ensures Inv(EMPTY, caps)
  {
  }

  /**
   * A share accepted and not yet launched stays accepted, in order, at every step
   * but two: a change of identity, and an offer met with both the cap in flight
   * and the backlog full, which gives up the oldest waiting share and no other.
   */
  lemma OnlyOldestIsDropped(s: Disp, caps: Caps, e: Event)
    requires Inv(s, caps) && Enabled(s, e)
    ensures
      var u := Next(s, caps, e);
      || u.jobId != s.jobId || u.epoch != s.epoch
      || (s.kept <= u.kept && s.launched <= u.launched)
      || (&& |s.inFlight| == caps.pending && |s.queue| == caps.queue && e.Offer?
          && u.launched == s.launched && s.kept[|s.launched|] == s.queue[0]
          && u.kept == s.kept[..|s.launched|] + s.kept[|s.launched| + 1..] + [u.kept[|u.kept| - 1]])
  {
    hide QueueOk, PostsOk, VerdictsFinal, Identities;
    if e.Finally? {
      FinishedConsistent(s, e.i);
      DrainConsistent(Finished(s, e.i), caps);
    } else if e.Offer? && |s.queue| > 0 {
      DropOldestOrder(s);
    }
  }

  // ------------------------------------------------------------------
  // One submission: retry until a final verdict
  // ------------------------------------------------------------------

  datatype Response = Aborted | Failed | Answer(status: int, result: Option<string>, block: bool)

  datatype Outcome = Retry | Rejected | Credited(block: bool)

  /** 408, 425, 429 and 5xx leave the share's fate open; anything else is decided by the body. */
  function ShareOutcome(status: int, result: Option<string>, block: bool): Outcome {
    if status == 429 || status == 503 || status == 408 || status == 425 || 500 <= status <= 599 then Retry
    else if result != Some("accepted") then Rejected
    else Credited(block)
  }

  /** Overload, timeouts and server errors are tried again; of the rest, exactly an "accepted" is credited. */
  lemma OutcomesAre(status: int, result: Option<string>, block: bool)
    ensures ShareOutcome(status, result, block).Retry? <==> status in {408, 425, 429} || 500 <= status < 600
    ensures !ShareOutcome(status, result, block).Retry? ==>
      (ShareOutcome(status, result, block) == Credited(block) <==> result == Some("accepted"))
      && (ShareOutcome(status, result, block) == Rejected <==> result != Some("accepted"))
  {
  }

  /** The world around one attempt: before the POST, its response, and right after. */
  datatype Attempt = Attempt(
    stopped: bool, epoch: nat, activeJob: Option<string>, now: int,
    response: Response, stoppedAfter: bool, backoff: int, later: int)

  predicate MayPost(sh: Share, deadline: int, a: Attempt) {
    !a.stopped && a.epoch == sh.epoch && a.activeJob == Some(sh.job) && a.now < deadline
  }

  /** The pool has spoken for good. */
  predicate Final(a: Attempt) {
    && !a.stoppedAfter && a.response.Answer?
    && !ShareOutcome(a.response.status, a.response.result, a.response.block).Retry?
  }

  /** The attempt is tried again. */
  predicate TryAgain(a: Attempt) {
    !a.stoppedAfter && (a.response.Failed? || (a.response.Answer? && !Final(a)))
  }

  function ClampShareDelay(delay: int, deadline: int, now: int): int {
    var capped := if delay <= deadline - now then delay else deadline - now;
    var ceiling := if capped <= 30_000 then capped else 30_000;
    if ceiling >= 0 then ceiling else 0
  }

  /** A wait is the backoff, cut to the time left and to 30 s, and never negative. */
  lemma ClampIs(delay: int, deadline: int, now: int)
    ensures var wait, left := ClampShareDelay(delay, deadline, now), deadline - now;
            && 0 <= wait <= 30_000 && (left >= 0 ==> wait <= left) && (delay >= 0 ==> wait <= delay)
            && (wait == delay || wait == left || wait == 30_000 || (wait == 0 && (delay < 0 || left < 0)))
  {
  }

  /**
   * `runShareSubmit` against a sequence of moments; None when they run out while
   * it is still retrying. It posts only under the captured identity, before the
   * deadline, and never again after a final verdict; it says true exactly when
   * its last post got one; and every wait fits the time left.
   */
  method RunShareSubmit(sh: Share, deadline: int, world: seq<Attempt>)
    returns (reached: Option<bool>, posts: nat, waits: seq<int>)
    ensures posts <= |world| && forall k :: 0 <= k < posts ==> MayPost(sh, deadline, world[k])
    ensures forall k :: 0 <= k < posts - 1 ==> TryAgain(world[k])
    ensures reached == Some(true) <==> posts > 0 && Final(world[posts - 1])
    ensures reached == Some(false) ==>
      (posts < |world| && !MayPost(sh, deadline, world[posts])) || (posts > 0 && !TryAgain(world[posts - 1]))
    ensures reached == None ==> posts == |world|
    ensures |waits| == if posts > 0 && !TryAgain(world[posts - 1]) then posts - 1 else posts
    ensures forall k :: 0 <= k < |waits| ==> waits[k] == ClampShareDelay(world[k].backoff, deadline, world[k].later)
  {
    posts, waits := 0, [];
    for attempt := 0 to |world|
      invariant posts == attempt == |waits|
      invariant forall k :: 0 <= k < posts ==> MayPost(sh, deadline, world[k]) && TryAgain(world[k])
      invariant forall k :: 0 <= k < |waits| ==>
        waits[k] == ClampShareDelay(world[k].backoff, deadline, world[k].later)
    {
      var a := world[attempt];
      if a.stopped || a.epoch != sh.epoch || a.activeJob != Some(sh.job) || a.now >= deadline {
        return Some(false), posts, waits;
      }
      posts := posts + 1;
      if a.response.Aborted? || a.stoppedAfter {
        return Some(false), posts, waits;
      }
      if a.response.Answer? {
        var outcome := ShareOutcome(a.response.status, a.response.result, a.response.block);
        if !outcome.Retry? {
          return Some(true), posts, waits;
        }
      }
      waits := waits + [ClampShareDelay(a.backoff, deadline, a.later)];
    }
    reached := None;
  }
}
