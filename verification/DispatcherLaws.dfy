/**
 * What the share dispatcher does with an offer, and that its bookkeeping never
 * drifts: a slot is held exactly by a submission under way, and a nonce is
 * remembered only for a final verdict (src/minerd/poolClient.ts 394-462).
 */
module DispatcherLaws {
  import opened Binary
  import opened Dispatcher

  /** Every taken slot belongs to a submission of the current identity that is still under way. */
  ghost predicate SlotsReal(s: Disp) {
    forall n :: n in s.inFlight ==> HeldBy(s, n)
  }

  ghost predicate HeldBy(s: Disp, n: nat) {
    exists k :: 0 <= k < |s.posts| && Current(s, s.posts[k].share) && s.posts[k].share.nonce == n
  }

  /** Every remembered nonce has had its final verdict under the current identity. */
  ghost predicate RememberedFinal(s: Disp) {
    && (s.jobId.None? ==> s.submitted == {} && s.inFlight == {})
    && (forall n :: n in s.submitted ==> s.jobId.Some? && (n, s.jobId.value, s.epoch) in s.terminals)
    && (forall k :: 0 <= k < |s.posts| && s.posts[k].stage == Settled(true) ==> Key(s.posts[k].share) in s.terminals)
  }

  ghost predicate Honest(s: Disp) { SlotsReal(s) && RememberedFinal(s) }

  lemma LaunchHonest(s: Disp, sh: Share)
    requires Honest(s) && Current(s, sh)
    ensures Honest(Launched(s, sh))
  {
    var u := Launched(s, sh);
    forall n | n in u.inFlight ensures HeldBy(u, n) {
      if n in s.inFlight {
        assert HeldBy(s, n);
        var k :| 0 <= k < |s.posts| && Current(s, s.posts[k].share) && s.posts[k].share.nonce == n;
        assert u.posts[k] == s.posts[k] && Current(u, u.posts[k].share);
      } else {
        assert u.posts[|s.posts|].share == sh && Current(u, sh);
      }
    }
  }

  /** The waiting list is no part of it. */
  lemma QueueIrrelevant(s: Disp, u: Disp)
    requires Honest(s) && u == s.(queue := u.queue, queued := u.queued, kept := u.kept)
    ensures Honest(u)
  {
    forall n | n in u.inFlight ensures HeldBy(u, n) {
      assert HeldBy(s, n);
      var k :| 0 <= k < |s.posts| && Current(s, s.posts[k].share) && s.posts[k].share.nonce == n;
      assert Current(u, u.posts[k].share);
    }
  }

  lemma {:induction false} DrainHonest(s: Disp, cap: nat)
    requires Honest(s)
    ensures Honest(Drained(s, cap))
    decreases |s.queue|
  {
    hide Honest;
    if |s.inFlight| < cap && s.queue != [] {
      var sh, s' := s.queue[0], Dequeued(s);
      QueueIrrelevant(s, s');
      if !Current(s, sh) || sh.nonce in s.submitted || sh.nonce in s.inFlight {
        DrainHonest(s', cap);
      } else {
        LaunchHonest(s', sh);
        DrainHonest(Launched(s', sh), cap);
      }
    }
  }

  lemma OfferHonest(s: Disp, caps: Caps, nonce: nat, job: string, worker: string)
    requires Honest(s)
    ensures Honest(Offered(s, caps, nonce, job, worker))
  {
    hide Honest;
    var sh := Share(nonce, job, worker, s.epoch);
    var s1 := if s.jobId == Some(job) then s else Wiped(s).(jobId := Some(job), seen := s.seen + {(job, s.epoch)});
    if s.jobId != Some(job) {
      FreshHonest(s, Some(job), s.epoch, s1.seen);
    }
    if nonce !in s1.submitted && nonce !in s1.inFlight && nonce !in s1.queued {
      if |s1.inFlight| >= caps.pending {
        QueueIrrelevant(s1, Offered(s, caps, nonce, job, worker));
      } else {
        LaunchHonest(s1, sh);
        QueueIrrelevant(Launched(s1, sh), Offered(s, caps, nonce, job, worker));
      }
    }
  }

  lemma FreshHonest(s: Disp, job: Option<string>, epoch: nat, seen: set<(string, nat)>)
    requires Honest(s)
    ensures Honest(Wiped(s).(jobId := job, epoch := epoch, seen := seen))
  {
  }

  lemma StageHonest(s: Disp, caps: Caps, e: Event)
    requires Honest(s) && Enabled(s, e) && (e.Settle? || e.Then?)
    ensures Honest(Next(s, caps, e))
  {
    var u := Next(s, caps, e);
    assert |u.posts| == |s.posts| && forall k :: 0 <= k < |s.posts| ==> u.posts[k].share == s.posts[k].share;
    forall n | n in u.inFlight ensures HeldBy(u, n) {
      assert HeldBy(s, n);
      var k :| 0 <= k < |s.posts| && Current(s, s.posts[k].share) && s.posts[k].share.nonce == n;
      assert Current(u, u.posts[k].share);
    }
    forall k | 0 <= k < |u.posts| && u.posts[k].stage == Settled(true) ensures Key(u.posts[k].share) in u.terminals {
      if k != e.i {
        assert u.posts[k] == s.posts[k];
      }
    }
  }

  lemma FinishHonest(s: Disp, i: nat)
    requires Honest(s) && i < |s.posts|
    ensures Honest(Finished(s, i))
  {
    var u, sh := Finished(s, i), s.posts[i].share;
    assert forall k :: 0 <= k < |u.posts| ==> u.posts[k] == s.posts[if k < i then k else k + 1];
    forall n | n in u.inFlight ensures HeldBy(u, n) {
      assert HeldBy(s, n);
      var k :| 0 <= k < |s.posts| && Current(s, s.posts[k].share) && s.posts[k].share.nonce == n;
      assert k != i;
      assert u.posts[if k < i then k else k - 1] == s.posts[k];
    }
  }

  lemma NextHonest(s: Disp, caps: Caps, e: Event)
    requires Honest(s) && Enabled(s, e)
    ensures Honest(Next(s, caps, e))
  {
    hide Honest, Offered, Drained;
    match e
    case Offer(nonce, job, worker) => OfferHonest(s, caps, nonce, job, worker);
    case Finally(i) =>
      FinishHonest(s, i);
      DrainHonest(Finished(s, i), caps.pending);
    case Reregister => FreshHonest(s, None, s.epoch + 1, s.seen);
    case _ => StageHonest(s, caps, e);
  }

  /** In every run: no slot leaks, and only final verdicts are remembered. */
  lemma {:induction false} AlwaysHonest(caps: Caps, events: seq<Event>)
    ensures Honest(After(caps, events))
    decreases |events|
  {
    hide Honest, Next;
    if events == [] {
      assert Honest(EMPTY) by { NothingHeld(); }
    } else {
      var s := After(caps, events[..|events| - 1]);
      AlwaysHonest(caps, events[..|events| - 1]);
      if Enabled(s, events[|events| - 1]) {
        NextHonest(s, caps, events[|events| - 1]);
      }
    }
  }

  lemma NothingHeld()
    ensures Honest(EMPTY)
  {
  }

  /**
   * An offered share that is new under its job is launched at once while a slot is
   * free and waits last in line otherwise; one already known changes nothing.
   */
  lemma OfferIsTaken(s: Disp, caps: Caps, nonce: nat, job: string, worker: string)
    requires Inv(s, caps) && Enabled(s, Offer(nonce, job, worker))
    ensures var u, sh := Next(s, caps, Offer(nonce, job, worker)), Share(nonce, job, worker, s.epoch);
            if s.jobId == Some(job) && (nonce in s.submitted || nonce in s.inFlight || nonce in s.queued) then u == s
            else if s.jobId == Some(job) && |s.inFlight| == caps.pending
            then u.posts == s.posts && u.queue != [] && u.queue[|u.queue| - 1] == sh
            else u.posts == s.posts + [Post(sh, Posting)] && nonce in u.inFlight && u.jobId == Some(job)
  {
    hide QueueOk, PostsOk, VerdictsFinal, Identities, InOrder;
  }
}
