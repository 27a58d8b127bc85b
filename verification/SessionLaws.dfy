/**
 * What the negotiated session does and when, over any event in any state: when a
 * registration is sent, what a result may set off, when the grind changes, and
 * what a lost socket leaves (src/minerd/negotiatedClient.ts 847-1294).
 */
module SessionLaws {
  import opened Binary
  import opened BlockCodec
  import opened Negotiated

  // ------------------------------------------------------------------
  // Sending
  // ------------------------------------------------------------------

  /** Our chain stands on the announced tip; a known block below our tip will not do. */
  predicate OnAnnouncedTip(s: Nego) { s.lastChainInfo.Some? && BytesToHex(s.tip) == s.lastChainInfo.value.tipHash }

  /** A live session that knows the pool's tip. */
  predicate Live(s: Nego) { !s.stopped && s.ws.Open? && s.lastChainInfo.Some? }

  /**
   * When the register timer fires, a template is sent exactly when the session is
   * live, no catch-up of this socket is under way, our chain stands on the
   * announced tip, 2.2 s have passed since the last one, and the block was built.
   */
  lemma RegisterFiresSends(s: Nego, now: int, built: Option<Header>)
    requires Enabled(s, RegisterFires(now, built))
    ensures var u := Next(s, RegisterFires(now, built));
            u.inFlight > s.inFlight <==>
            && Live(s) && s.registering != Some(s.socketGen) && OnAnnouncedTip(s)
            && now >= s.lastRegisterAt + 2_200 && built.Some?
  {
    hide BytesToHex, EncodeHeader, PruneOutstanding;
  }

  /** After a catch-up that returned, under the same conditions on the state it left. */
  lemma CatchUpSends(s: Nego, gen: nat, now: int, built: Option<Header>)
    requires Enabled(s, CatchUpEnds(gen, Returned, now, built))
    ensures var u := Next(s, CatchUpEnds(gen, Returned, now, built));
            u.inFlight > s.inFlight <==>
            Live(s) && gen == s.socketGen && OnAnnouncedTip(s) && now >= s.lastRegisterAt + 2_200 && built.Some?
  {
    hide BytesToHex, EncodeHeader, PruneOutstanding;
  }

  /** One more answer to wait for: the header's hex on the list, a deadline, and the grind left alone. */
  ghost predicate Sends(s: Nego, u: Nego, now: int, h: Header) {
    && u.inFlight == s.inFlight + 1 && u.lastRegisterAt == now && u.sent == s.sent + {h}
    && Entry(BytesToHex(EncodeHeader(h)), now) in u.outstanding
    && u.resultWatchdog == Some(ResultWait(s.watchdogStrikes)) && u.grinding == s.grinding
  }

  /**
   * A catch-up towards the announced tip is started exactly when the session is
   * live with none of this socket under way and we do not have that block at all.
   */
  lemma RegisterFiresChases(s: Nego, now: int, built: Option<Header>)
    requires Enabled(s, RegisterFires(now, built)) && s.socketGen !in s.pending
    ensures var u := Next(s, RegisterFires(now, built));
            if Live(s) && s.registering != Some(s.socketGen) && !OnAnnouncedTip(s)
               && (forall h :: h in s.known ==> BytesToHex(h) != s.lastChainInfo.value.tipHash)
            then u.pending == s.pending[s.socketGen := s.lastChainInfo.value] && u.registering == Some(s.socketGen)
            else u.pending == s.pending
  {
    hide BytesToHex, EncodeHeader, PruneOutstanding, ResultWait;
  }

  /** Nothing else sends, and what is sent is the block just built: it waits for its answer, with a deadline. */
  lemma SendingIs(s: Nego, e: Event)
    requires Enabled(s, e) && Next(s, e).inFlight > s.inFlight
    ensures (e.RegisterFires? && e.built.Some?) || (e.CatchUpEnds? && e.outcome.Returned? && e.built.Some?)
    ensures Sends(s, Next(s, e), e.now, e.built.value) && e.built.value.prevHash == s.tip
  {
    hide BytesToHex, EncodeHeader, RegisterNow, ResultWait, Next;
    OthersDoNotSend(s, e);
    if e.RegisterFires? {
      RegisterNowSends(s.(registerTimer := None, registering := None), e.now, e.built);
    } else {
      RegisterNowSends(Released(s, e.gen), e.now, e.built);
    }
  }

  lemma RegisterNowSends(s: Nego, now: int, built: Option<Header>)
    requires s.lastChainInfo.Some? && RegisterNow(s, now, built).inFlight > s.inFlight
    ensures built.Some? && Sends(s, RegisterNow(s, now, built), now, built.value)
  {
    hide BytesToHex, EncodeHeader, PruneOutstanding, ResultWait;
    var x := Entry(BytesToHex(EncodeHeader(built.value)), now);
    PruneKeeps(s.outstanding + [x], now);
    assert (s.outstanding + [x])[|s.outstanding|] == x;
  }

  lemma OthersDoNotSend(s: Nego, e: Event)
    requires Enabled(s, e) && Next(s, e).inFlight > s.inFlight
    ensures s.lastChainInfo.Some? && (e.RegisterFires? || (e.CatchUpEnds? && e.outcome.Returned?))
    ensures var u := Next(s, e);
            u == if e.RegisterFires? then RegisterNow(s.(registerTimer := None, registering := None), e.now, e.built)
                 else RegisterNow(Released(s, e.gen), e.now, e.built)
  {
    hide BytesToHex, RegisterNow, OnTemplateResult, OnChainInfo;
    if e.TemplateResultArrives? && !s.stopped {
      ResultDoesNotSend(s, e.result);
    } else if e.ChainInfoArrives? {
      InfoDoesNotSend(s, e.info);
    }
  }

  lemma ResultDoesNotSend(s: Nego, m: Result)
    ensures OnTemplateResult(s, m).inFlight <= s.inFlight
  {
    hide SettleOutstanding, HexToBytes, IsHexTarget;
  }

  lemma InfoDoesNotSend(s: Nego, info: Info)
    ensures OnChainInfo(s, info).inFlight == s.inFlight
  {
  }

  /** The deadline is 12 s, doubled with every missed one up to two minutes. */
  lemma ResultWaitDoubles(strikes: nat)
    ensures ResultWait(0) == 12_000
    ensures ResultWait(strikes + 1) ==
            if 2 * ResultWait(strikes) <= 120_000 then 2 * ResultWait(strikes) else 120_000
  {
  }

  /** An armed registration is due within five seconds. */
  predicate DueSoon(s: Nego) { s.registerTimer.Some? ==> 0 <= s.registerTimer.value <= 5_000 }

  /** While the clock does not run backwards, the next try is never further away than that. */
  lemma NextTryIsSoon(s: Nego, e: Event)
    requires Enabled(s, e) && DueSoon(s)
    requires e.RegisterFires? || e.CatchUpEnds? ==> s.lastRegisterAt <= e.now
    ensures DueSoon(Next(s, e))
  {
    hide RegisterTemplate, AfterCatchUp, OnTemplateResult;
    match e
    case TemplateResultArrives(m) => if !s.stopped { ResultDueSoon(s, m); }
    case RegisterFires(now, built) => RegisterDueSoon(s.(registerTimer := None), now, built);
    case CatchUpEnds(gen, r, now, built) => CatchUpDueSoon(s, gen, r, now, built);
    case _ =>
  }

  lemma RegisterDueSoon(s: Nego, now: int, built: Option<Header>)
    requires DueSoon(s) && s.lastRegisterAt <= now
    ensures DueSoon(RegisterTemplate(s, now, built))
  {
    hide BytesToHex, EncodeHeader, PruneOutstanding, ResultWait;
  }

  lemma CatchUpDueSoon(s: Nego, gen: nat, r: CatchUp, now: int, built: Option<Header>)
    requires DueSoon(s) && s.lastRegisterAt <= now
    ensures DueSoon(AfterCatchUp(s, gen, r, now, built))
  {
    hide BytesToHex, EncodeHeader, PruneOutstanding, ResultWait;
  }

  lemma ResultDueSoon(s: Nego, m: Result)
    requires DueSoon(s)
    ensures DueSoon(OnTemplateResult(s, m))
  {
    hide SettleOutstanding, HexToBytes, IsHexTarget;
  }

  // ------------------------------------------------------------------
  // Results
  // ------------------------------------------------------------------

  /**
   * The rule that bounds the waiting list: a result sets off another registration
   * only if it settled one, or nothing is left unanswered.
   */
  lemma ResultRule(s: Nego, m: Result)
    requires Enabled(s, TemplateResultArrives(m))
    ensures var u := Next(s, TemplateResultArrives(m));
            u.registerTimer != s.registerTimer ==> |u.outstanding| < |s.outstanding| || u.inFlight == 0
  {
    hide BytesToHex, HexToBytes, IsHexTarget, SettleOutstanding;
    SettlesOne(s.outstanding, m.headerHex);
    if SettleOutstanding(s.outstanding, m.headerHex).Some? {
      var settled := SettleOutstanding(s.outstanding, m.headerHex).value;
      SettledIsShorter(s.outstanding, settled);
    }
  }

  /**
   * A rejection that leaves another answer open changes nothing else; one that
   * leaves none forgets what was waiting and tries again, later when rate limited.
   */
  lemma RejectedResult(s: Nego, m: Result)
    requires Enabled(s, TemplateResultArrives(m)) && !s.stopped && !m.accepted
    ensures var u := Next(s, TemplateResultArrives(m));
            if s.inFlight > 1 then u == s.(inFlight := s.inFlight - 1)
            else u == s.(inFlight := 0, outstanding := [], resultWatchdog := None, watchdogStrikes := 0,
                         registerTimer := Some(if m.rateLimited then 2_200 else 5_000))
  {
  }

  /** An acceptance of a header not waited for changes nothing else, but tries again if no answer is left open. */
  lemma ForeignResult(s: Nego, m: Result)
    requires Enabled(s, TemplateResultArrives(m)) && !s.stopped && m.accepted
    requires m.headerHex.Some? ==>
      forall k :: 0 <= k < |s.outstanding| ==> s.outstanding[k].headerHex != ToLower(m.headerHex.value)
    ensures var u := Next(s, TemplateResultArrives(m));
            if s.inFlight > 1 then u == s.(inFlight := s.inFlight - 1)
            else u == s.(inFlight := 0, resultWatchdog := None, registerTimer := Some(5_000))
  {
    hide SettleOutstanding, ToLower, HexToBytes, IsHexTarget;
    SettlesOne(s.outstanding, m.headerHex);
  }

  lemma SettledIsShorter(entries: seq<Entry>, settled: Settlement)
    requires multiset(settled.rest) == multiset(entries) - multiset{settled.matched} && settled.matched in entries
    ensures |settled.rest| == |entries| - 1
  {
    assert settled.matched in multiset(entries);
    assert |multiset(settled.rest)| == |settled.rest| && |multiset(entries)| == |entries|;
  }

  // ------------------------------------------------------------------
  // The grind
  // ------------------------------------------------------------------

  /** A different tip, a stale verdict, an exhausted or stalled grind, a lost socket. */
  predicate EndsWork(s: Nego, e: Event) {
    match e
    case ChainInfoArrives(info) =>
      !s.stopped && (s.lastChainInfo.None? || info.tipHash != s.lastChainInfo.value.tipHash)
    case ShareResultArrives(accepted, stale) => !s.stopped && !accepted && stale
    case Exhausted => true
    case GrindStalls(respawn) => respawn
    case SocketCloses(finished) => finished
    case _ => false
  }

  /**
   * Good work is never dropped on a whim: a running grind stops exactly at those
   * events, and no rejection, foreign result, deadline or catch-up stops it.
   */
  lemma GrindStopsExactly(s: Nego, e: Event)
    requires Enabled(s, e) && s.grinding.Some?
    ensures Next(s, e).grinding.None? <==> EndsWork(s, e)
  {
    hide RegisterTemplate, AfterCatchUp, OnTemplateResult;
    match e
    case TemplateResultArrives(m) => if !s.stopped { ResultsKeepGrind(s, m); }
    case RegisterFires(now, built) => RegisteringKeepsGrind(s.(registerTimer := None), now, built);
    case CatchUpEnds(gen, r, now, built) => CatchUpKeepsGrind(s, gen, r, now, built);
    case _ =>
  }

  lemma RegisteringKeepsGrind(s: Nego, now: int, built: Option<Header>)
    ensures RegisterTemplate(s, now, built).grinding == s.grinding
  {
    hide BytesToHex, EncodeHeader, PruneOutstanding, ResultWait;
  }

  lemma CatchUpKeepsGrind(s: Nego, gen: nat, r: CatchUp, now: int, built: Option<Header>)
    ensures AfterCatchUp(s, gen, r, now, built).grinding == s.grinding
  {
    hide BytesToHex, EncodeHeader, PruneOutstanding, ResultWait;
  }

  lemma ResultsKeepGrind(s: Nego, m: Result)
    requires s.grinding.Some?
    ensures OnTemplateResult(s, m).grinding.Some?
  {
    hide SettleOutstanding, HexToBytes, IsHexTarget;
  }

  /** Where it stops, and the session stays, the next registration is due at once. */
  lemma StoppedWorkIsReplaced(s: Nego, e: Event)
    requires Enabled(s, e) && s.grinding.Some? && EndsWork(s, e) && !s.stopped
    ensures var u := Next(s, e);
            if e.SocketCloses? then u.ws.NoSocket? && u.reconnectTimer && u.registerTimer.None?
            else u.registerTimer == Some(0)
  {
    hide BytesToHex, EncodeHeader;
  }

  /**
   * A new grind starts, or the running one changes, only on an accepted result for
   * a waiting header, on exactly the bytes, job and target it names, or on a new
   * target for the same job.
   */
  lemma GrindChangesExactly(s: Nego, e: Event)
    requires Enabled(s, e) && Next(s, e).grinding.Some? && Next(s, e).grinding != s.grinding
    ensures e.TemplateResultArrives? || e.ShareTargetArrives?
    ensures var g := Next(s, e).grinding.value;
            match e
            case TemplateResultArrives(m) =>
              && m.accepted && m.headerHex.Some? && m.targetHex.Some?
              && (exists k :: 0 <= k < |s.outstanding| && s.outstanding[k].headerHex == ToLower(m.headerHex.value))
              && HexToBytes(m.headerHex.value) == Some(g.headerBytes)
              && g.templateId == m.templateId && g.targetHex == m.targetHex.value
            case ShareTargetArrives(id, target) =>
              && s.grinding.Some? && id == s.grinding.value.templateId && target.Some?
              && g == s.grinding.value.(targetHex := target.value)
            case _ => false
    ensures var target := Next(s, e).grinding.value.targetHex;
            1 <= |target| <= 64 && forall i :: 0 <= i < |target| ==> HexDigit(target[i]).Some?
  {
    hide RegisterTemplate, AfterCatchUp, OnTemplateResult, HexToBytes, ToLower, IsHexTarget;
    match e
    case TemplateResultArrives(m) => ResultStartsGrind(s, m);
    case RegisterFires(now, built) => RegisteringKeepsGrind(s.(registerTimer := None), now, built);
    case CatchUpEnds(gen, r, now, built) => CatchUpKeepsGrind(s, gen, r, now, built);
    case ShareTargetArrives(_, target) => HexTargetIs(target);
    case _ =>
  }

  lemma HexTargetIs(target: Option<string>)
    ensures IsHexTarget(target) <==>
            && target.Some? && 1 <= |target.value| <= 64
            && forall i :: 0 <= i < |target.value| ==> HexDigit(target.value[i]).Some?
  {
    hide HexDigit;
  }

  lemma ResultStartsGrind(s: Nego, m: Result)
    requires OnTemplateResult(s, m).grinding.Some? && OnTemplateResult(s, m).grinding != s.grinding
    ensures m.accepted && m.headerHex.Some? && m.targetHex.Some?
    ensures exists k :: 0 <= k < |s.outstanding| && s.outstanding[k].headerHex == ToLower(m.headerHex.value)
    ensures HexToBytes(m.headerHex.value).Some?
    ensures OnTemplateResult(s, m).grinding ==
            Some(Grind(m.templateId, HexToBytes(m.headerHex.value).value, m.targetHex.value))
    ensures var target := m.targetHex.value;
            1 <= |target| <= 64 && forall i :: 0 <= i < |target| ==> HexDigit(target[i]).Some?
  {
    hide SettleOutstanding, HexToBytes, ToLower, IsHexTarget, HexDigit;
    HexTargetIs(m.targetHex);
    SettlesOne(s.outstanding, m.headerHex);
  }

  // ------------------------------------------------------------------
  // Sockets
  // ------------------------------------------------------------------

  /** A lost socket leaves no grind, no waiting list and no timer but the reconnect; its catch-ups are fenced off. */
  lemma LostSocketClears(s: Nego)
    requires Enabled(s, SocketCloses(true))
    ensures var u := Next(s, SocketCloses(true));
            && u.grinding.None? && u.outstanding == [] && u.inFlight == 0 && u.sent == {}
            && u.registerTimer.None? && u.resultWatchdog.None? && u.reconnectTimer
            && s.socketGen in u.aborted && u.pending == s.pending
            && u.lastChainInfo == s.lastChainInfo && u.lastRegisterAt == s.lastRegisterAt
  {
  }

  /** A new socket fences off every catch-up of the ones before it, and takes no slot from them. */
  lemma NewSocketFences(s: Nego, gen: nat)
    requires Inv(s) && Enabled(s, Connect(false)) && gen in s.pending
    ensures var u := Next(s, Connect(false));
            && u.socketGen == s.socketGen + 1 && gen < u.socketGen && u.registering != Some(u.socketGen)
            && (gen == s.socketGen ==> gen in u.aborted) && !u.reconnectTimer
  {
    hide OwnWork, CleanStart, Spaced, UnderWay;
  }

  // ------------------------------------------------------------------
  // Announcements, deadlines, the end
  // ------------------------------------------------------------------

  /**
   * A re-announced tip leaves work in hand alone; with nothing in hand, or on
   * another tip, a registration is due at once, and another tip voids what waits.
   */
  lemma AnnouncementIs(s: Nego, info: Info)
    requires Enabled(s, ChainInfoArrives(info)) && !s.stopped
    ensures var u := Next(s, ChainInfoArrives(info));
            var same := s.lastChainInfo.Some? && s.lastChainInfo.value.tipHash == info.tipHash;
            && u.lastChainInfo == Some(info) && u.inFlight == s.inFlight && u.resultWatchdog == s.resultWatchdog
            && if same && (s.grinding.Some? || s.outstanding != [])
               then u.grinding == s.grinding && u.outstanding == s.outstanding && u.registerTimer == s.registerTimer
               else u.grinding.None? && u.registerTimer == Some(0)
                    && u.outstanding == if same then s.outstanding else []
  {
  }

  /** A missed deadline counts a strike and registers again, leaving a grind running; so does a reset chain. */
  lemma DeadlineMissed(s: Nego)
    requires !s.stopped
    ensures Enabled(s, WatchdogFires) ==>
      Next(s, WatchdogFires) ==
      s.(resultWatchdog := None, watchdogStrikes := s.watchdogStrikes + 1, registerTimer := Some(0))
    ensures Next(s, Invalidated) == s.(registerTimer := Some(0))
  {
  }

  /** While this socket's catch-up runs, another registration only waits, a quarter of a second. */
  lemma SingleFlight(s: Nego, now: int, built: Option<Header>)
    requires Enabled(s, RegisterFires(now, built)) && Live(s) && s.registering == Some(s.socketGen)
    ensures Next(s, RegisterFires(now, built)) == s.(registerTimer := Some(250))
  {
  }

  /** Once stopped, no timer is armed by anything, nothing is sent, and the fence is down. */
  lemma StoppedForGood(s: Nego, e: Event)
    requires Enabled(s, e)
    ensures Next(s, Stop).stopped && s.socketGen in Next(s, Stop).aborted
    ensures Next(s, Stop).registerTimer.None? && Next(s, Stop).resultWatchdog.None? && !Next(s, Stop).reconnectTimer
    ensures s.stopped && s.registerTimer.None? && s.resultWatchdog.None? && !s.reconnectTimer ==>
      var u := Next(s, e);
      u.stopped && u.registerTimer.None? && u.resultWatchdog.None? && !u.reconnectTimer && u.sent == s.sent
  {
    hide BytesToHex, RegisterNow, SettleOutstanding, IsHexTarget, HexToBytes;
  }
}
