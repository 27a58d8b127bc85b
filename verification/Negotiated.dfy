/**
 * The negotiated-pool client's session machine (runNegotiatedPoolClient,
 * src/minerd/negotiatedClient.ts 211-300 and 726-1271) over its events: pool
 * messages in any order, lost or repeated; timers; catch-ups that finish late or
 * fail; sockets that come and go; a chain that moves while a catch-up runs.
 */
module Negotiated {
  import opened Binary
  import opened BlockCodec
  import opened Crypto

  const TEMPLATE_RESULT_TIMEOUT_MS := 12_000
  const TEMPLATE_RESULT_TIMEOUT_MAX_MS := 120_000
  const RETRY_BUILD_DELAY_MS := 5_000
  const RETRY_REGISTER_BUSY_MS := 250
  const REGISTER_MIN_INTERVAL_MS := 2_200
  const OUTSTANDING_TTL_MS := 1_800_000

  // ------------------------------------------------------------------
  // Registrations waiting for an answer
  // ------------------------------------------------------------------

  datatype Entry = Entry(headerHex: string, at: int)

  /** Dropped by age only. */
  function PruneOutstanding(entries: seq<Entry>, now: int): seq<Entry> {
    if entries == [] then []
    else
      var e := entries[|entries| - 1];
      PruneOutstanding(entries[..|entries| - 1], now) + (if now - e.at <= OUTSTANDING_TTL_MS then [e] else [])
  }

  function FindHeader(entries: seq<Entry>, want: string): (i: nat)
    ensures i <= |entries|
    ensures i < |entries| ==> entries[i].headerHex == want
  {
    if entries == [] then 0
    else if entries[0].headerHex == want then 0
    else 1 + FindHeader(entries[1..], want)
  }

  datatype Settlement = Settlement(matched: Entry, rest: seq<Entry>)

  /** Correlates an accepted result to the template it answers, and takes out that one only. */
  function SettleOutstanding(entries: seq<Entry>, headerHex: Option<string>): Option<Settlement> {
    if headerHex.None? then None
    else
      var i := FindHeader(entries, ToLower(headerHex.value));
      if i == |entries| then None else Some(Settlement(entries[i], entries[..i] + entries[i + 1..]))
  }

  datatype ResultAction = MatchAccepted | SettleAndRetry | IgnoreAmbiguous

  function ClassifyTemplateResult(accepted: bool, inFlightAfter: nat): ResultAction {
    if accepted then MatchAccepted else if inFlightAfter == 0 then SettleAndRetry else IgnoreAmbiguous
  }

  predicate IsHexTarget(s: Option<string>) {
    s.Some? && 1 <= |s.value| <= 64 && forall i :: 0 <= i < |s.value| ==> HexDigit(s.value[i]).Some?
  }

  // ------------------------------------------------------------------
  // State
  // ------------------------------------------------------------------

  datatype Info = Info(height: nat, tipHash: string)

  datatype Grind = Grind(templateId: string, headerBytes: Bytes, targetHex: string)

  /** A socket is connecting, then open, then closing until its close event. */
  datatype Sock = NoSocket | Connecting | Open | Closing

  datatype Nego = Nego(
    stopped: bool,
    ws: Sock,
    socketGen: nat,
    lastChainInfo: Option<Info>,
    grinding: Option<Grind>,
    outstanding: seq<Entry>,
    inFlight: nat,
    /** the socket generation whose registration is in progress */
    registering: Option<nat>,
    watchdogStrikes: nat,
    lastRegisterAt: int,
    // Timers that are armed, with their delays.
    registerTimer: Option<int>,
    resultWatchdog: Option<int>,
    reconnectTimer: bool,
    // The outside: catch-ups under way by generation with the tip they chase, fences aborted, our chain.
    pending: map<nat, Info>,
    aborted: set<nat>,
    tip: Hash32,
    known: set<Hash32>,
    // Headers sent on this socket since the pool's tip last changed, and whether this socket brought chain_info.
    sent: set<Header>,
    gotInfo: bool)

  /** Just before the first `connect`. */
  function Initial(tip: Hash32, known: set<Hash32>): Nego {
    Nego(false, NoSocket, 0, None, None, [], 0, None, 0, 0, None, None, true, map[], {}, tip, known, {}, false)
  }

  predicate HasBlock(s: Nego, hex: string) { exists h :: h in s.known && BytesToHex(h) == hex }

  predicate OnTip(s: Nego, hex: string) { BytesToHex(s.tip) == hex }

  /** Not the same live session any more, seen from a call that began under generation `gen`. */
  predicate SessionOver(s: Nego, gen: nat) { s.stopped || gen != s.socketGen || !s.ws.Open? }

  function Schedule(s: Nego, delay: int): Nego {
    if s.stopped then s else s.(registerTimer := Some(delay))
  }

  // ------------------------------------------------------------------
  // Registering
  // ------------------------------------------------------------------

  function Doubled(x: int, n: nat): int { if n == 0 then x else 2 * Doubled(x, n - 1) }

  function ResultWait(strikes: nat): int {
    var d := Doubled(TEMPLATE_RESULT_TIMEOUT_MS, strikes);
    if d <= TEMPLATE_RESULT_TIMEOUT_MAX_MS then d else TEMPLATE_RESULT_TIMEOUT_MAX_MS
  }

  /** `registerNow`, given whether the block can be built. */
  function RegisterNow(s: Nego, now: int, built: Option<Header>): Nego
    requires s.lastChainInfo.Some?
  {
    var latest := s.lastChainInfo.value;
    var wait := s.lastRegisterAt + REGISTER_MIN_INTERVAL_MS - now;
    if !OnTip(s, latest.tipHash) && HasBlock(s, latest.tipHash) then Schedule(s, RETRY_BUILD_DELAY_MS)
    else if wait > 0 then Schedule(s, wait)
    else if built.None? then Schedule(s, RETRY_BUILD_DELAY_MS)
    else
      s.(lastRegisterAt := now,
         outstanding := PruneOutstanding(s.outstanding + [Entry(BytesToHex(EncodeHeader(built.value)), now)], now),
         inFlight := s.inFlight + 1,
         sent := s.sent + {built.value},
         resultWatchdog := Some(ResultWait(s.watchdogStrikes)))
  }

  /** `registerTemplate` up to its await, or to its end when it does not await. */
  function RegisterTemplate(s: Nego, now: int, built: Option<Header>): Nego {
    if SessionOver(s, s.socketGen) || s.lastChainInfo.None? then s
    else if s.registering == Some(s.socketGen) then Schedule(s, RETRY_REGISTER_BUSY_MS)
    else
      var info := s.lastChainInfo.value;
      if !OnTip(s, info.tipHash) && !HasBlock(s, info.tipHash) then
        s.(registering := Some(s.socketGen), pending := s.pending[s.socketGen := info])
      else RegisterNow(s.(registering := None), now, built)
  }

  /** The slot is given back only if it is still this generation's. */
  function Released(s: Nego, gen: nat): Nego {
    s.(pending := s.pending - {gen}, registering := if s.registering == Some(gen) then None else s.registering)
  }

  datatype CatchUp = Returned | Failed | Aborted

  /** `registerTemplate` from its await on. */
  function AfterCatchUp(s: Nego, gen: nat, r: CatchUp, now: int, built: Option<Header>): Nego {
    var s' := Released(s, gen);
    if r.Aborted? || SessionOver(s, gen) || s.lastChainInfo.None? then s'
    else if r.Failed? || !(OnTip(s, s.lastChainInfo.value.tipHash) || HasBlock(s, s.lastChainInfo.value.tipHash)) then
      Schedule(s', RETRY_BUILD_DELAY_MS)
    else RegisterNow(s', now, built)
  }

  // ------------------------------------------------------------------
  // Messages and other events
  // ------------------------------------------------------------------

  datatype Result = Result(accepted: bool, rateLimited: bool, headerHex: Option<string>, targetHex: Option<string>,
                           templateId: string)

  function OnChainInfo(s: Nego, info: Info): Nego {
    var same := s.lastChainInfo.Some? && s.lastChainInfo.value.tipHash == info.tipHash;
    var s1 := s.(lastChainInfo := Some(info), gotInfo := true);
    if (s.grinding.Some? || s.outstanding != []) && same then s1
    else
      var s2 := s1.(grinding := None);
      Schedule(if same then s2 else s2.(outstanding := [], sent := {}), 0)
  }

  function OnTemplateResult(s: Nego, m: Result): Nego {
    var s1 := s.(inFlight := if s.inFlight > 0 then s.inFlight - 1 else 0);
    match ClassifyTemplateResult(m.accepted, s1.inFlight)
    case IgnoreAmbiguous => s1
    case SettleAndRetry =>
      Schedule(s1.(resultWatchdog := None, outstanding := [], watchdogStrikes := 0),
               if m.rateLimited then REGISTER_MIN_INTERVAL_MS else RETRY_BUILD_DELAY_MS)
    case MatchAccepted =>
      var settled := SettleOutstanding(s.outstanding, m.headerHex);
      if settled.None? then
        if s1.inFlight == 0 then Schedule(s1.(resultWatchdog := None), RETRY_BUILD_DELAY_MS) else s1
      else
        var s2 := s1.(resultWatchdog := None, outstanding := settled.value.rest, watchdogStrikes := 0);
        if !IsHexTarget(m.targetHex) then Schedule(s2, RETRY_BUILD_DELAY_MS)
        else
          var bytes := HexToBytes(m.headerHex.value);
          if bytes.None? then s2 else s2.(grinding := Some(Grind(m.templateId, bytes.value, m.targetHex.value)))
  }

  function OnShareTarget(s: Nego, templateId: string, targetHex: Option<string>): Nego {
    if s.grinding.Some? && s.grinding.value.templateId == templateId && IsHexTarget(targetHex)
    then s.(grinding := Some(s.grinding.value.(targetHex := targetHex.value))) else s
  }

  function DropGrind(s: Nego): Nego { Schedule(s.(grinding := None), 0) }

  function OnClose(s: Nego): Nego {
    s.(ws := NoSocket, aborted := s.aborted + {s.socketGen}, grinding := None, outstanding := [], inFlight := 0,
       resultWatchdog := None, registerTimer := None, reconnectTimer := true, sent := {}, gotInfo := false)
  }

  function OnConnect(s: Nego): Nego {
    s.(ws := Connecting, aborted := s.aborted + {s.socketGen}, socketGen := s.socketGen + 1, reconnectTimer := false)
  }

  function OnStop(s: Nego): Nego {
    s.(stopped := true, registerTimer := None, resultWatchdog := None, reconnectTimer := false,
       aborted := s.aborted + {s.socketGen})
  }

  function OnWatchdog(s: Nego): Nego {
    Schedule(s.(resultWatchdog := None, watchdogStrikes := s.watchdogStrikes + 1), 0)
  }

  datatype Event =
    | Connect(throws: bool)
    | SocketOpens
    | SocketCloses(finished: bool)
    | ChainInfoArrives(info: Info)
    | TemplateResultArrives(result: Result)
    | ShareTargetArrives(templateId: string, targetHex: Option<string>)
    | ShareResultArrives(accepted: bool, stale: bool)
    | RegisterFires(now: int, built: Option<Header>)
    | WatchdogFires
    | CatchUpEnds(gen: nat, outcome: CatchUp, now: int, built: Option<Header>)
    | Exhausted
    | GrindStalls(respawn: bool)
    | Invalidated
    | ChainMoves(newTip: Hash32, newKnown: set<Hash32>)
    | Stop

  /**
   * Timers fire when armed; messages come over an opened socket; the grind calls
   * back while it runs; a catch-up is aborted only through its own fence; the
   * chain moves only while some catch-up runs; a block is built on our tip.
   */
  predicate Enabled(s: Nego, e: Event) {
    match e
    case Connect(_) => s.reconnectTimer && !s.stopped
    case SocketOpens => s.ws.Connecting?
    case SocketCloses(finished) => !s.ws.NoSocket? && !s.stopped
    case ChainInfoArrives(_) => s.ws.Open? || s.ws.Closing?
    case TemplateResultArrives(_) => s.ws.Open? || s.ws.Closing?
    case ShareTargetArrives(_, _) => s.ws.Open? || s.ws.Closing?
    case ShareResultArrives(_, _) => s.ws.Open? || s.ws.Closing?
    case RegisterFires(_, built) => s.registerTimer.Some? && BuiltOnTip(s, built)
    case WatchdogFires => s.resultWatchdog.Some?
    case CatchUpEnds(gen, r, _, built) =>
      gen in s.pending && (r.Aborted? ==> gen in s.aborted) && BuiltOnTip(s, built)
    case Exhausted => s.grinding.Some? && !s.stopped
    case GrindStalls(_) => s.grinding.Some? && !s.stopped
    case Invalidated => !s.stopped
    case ChainMoves(_, _) => s.pending.Keys != {}
    case Stop => true
  }

  predicate BuiltOnTip(s: Nego, built: Option<Header>) { built.Some? ==> built.value.prevHash == s.tip }

  function Next(s: Nego, e: Event): Nego
    requires Enabled(s, e)
  {
    match e
    case Connect(throws) => if throws then s else OnConnect(s)
    case SocketOpens => s.(ws := Open)
    case SocketCloses(finished) => if finished then OnClose(s) else s.(ws := Closing)
    case ChainInfoArrives(info) => if s.stopped then s else OnChainInfo(s, info)
    case TemplateResultArrives(m) => if s.stopped then s else OnTemplateResult(s, m)
    case ShareTargetArrives(id, t) => if s.stopped then s else OnShareTarget(s, id, t)
    case ShareResultArrives(accepted, stale) =>
      if !s.stopped && !accepted && s.grinding.Some? && stale then DropGrind(s) else s
    case RegisterFires(now, built) => RegisterTemplate(s.(registerTimer := None), now, built)
    case WatchdogFires => OnWatchdog(s)
    case CatchUpEnds(gen, r, now, built) => AfterCatchUp(s, gen, r, now, built)
    case Exhausted => DropGrind(s)
    case GrindStalls(respawn) => if respawn then DropGrind(s) else s
    case Invalidated => Schedule(s, 0)
    case ChainMoves(newTip, newKnown) => s.(tip := newTip, known := newKnown)
    case Stop => OnStop(s)
  }

  // ------------------------------------------------------------------
  // Safety: what is ground
  // ------------------------------------------------------------------

  ghost predicate SentHex(s: Nego, hex: string) { exists h :: h in s.sent && BytesToHex(EncodeHeader(h)) == hex }

  ghost predicate SentBytes(s: Nego, bytes: Bytes) { exists h :: h in s.sent && EncodeHeader(h) == bytes }

  /**
   * Everything sent since the pool's tip last changed was built on that tip; every
   * template waiting for an answer, and the one being ground, is byte for byte
   * one of those.
   */
  ghost predicate OwnWork(s: Nego) {
    && (forall h :: h in s.sent ==> s.lastChainInfo.Some? && BytesToHex(h.prevHash) == s.lastChainInfo.value.tipHash)
    && (forall k :: 0 <= k < |s.outstanding| ==> SentHex(s, s.outstanding[k].headerHex))
    && (s.grinding.Some? ==> SentBytes(s, s.grinding.value.headerBytes))
  }

  // ------------------------------------------------------------------
  // Progress: something is always under way
  // ------------------------------------------------------------------

  /** Grinding, or about to register, or registering, or waiting for an answer with a deadline. */
  predicate UnderWay(s: Nego) {
    s.grinding.Some? || s.registerTimer.Some? || s.registering == Some(s.socketGen) || s.resultWatchdog.Some?
  }

  /** This session has something to do: it has been told the tip, or has work of its own. */
  predicate Active(s: Nego) {
    !s.stopped && s.ws.Open? && (s.gotInfo || s.outstanding != [] || s.grinding.Some?)
  }

  /** Generations: a slot taken is held by a catch-up, and a fence of the live session stands. */
  ghost predicate Generations(s: Nego) {
    && (s.registering.Some? ==> s.registering.value in s.pending)
    && (s.socketGen in s.pending ==> s.registering == Some(s.socketGen))
    && (forall g :: g in s.pending ==> g <= s.socketGen)
    && (forall g :: g in s.aborted ==> g <= s.socketGen)
    && (!s.stopped && s.socketGen in s.aborted ==> s.ws.NoSocket?)
    && (!s.stopped ==> (s.ws.NoSocket? <==> s.reconnectTimer))
  }

  /** Before a socket is open, and without one, there is no work of an earlier one left. */
  predicate CleanStart(s: Nego) {
    && (!s.stopped && (s.ws.NoSocket? || s.ws.Connecting?) ==>
          s.grinding.None? && s.outstanding == [] && s.sent == {} && !s.gotInfo && s.resultWatchdog.None?)
    && (s.lastChainInfo.None? ==> s.grinding.None? && s.outstanding == [] && s.pending == map[] && !s.gotInfo)
  }

  /** Registrations are at least 2.2 s apart and the waiting ones no older than half an hour. */
  predicate Spaced(s: Nego) {
    && Gaps(s.outstanding)
    && (forall k :: 0 <= k < |s.outstanding| ==>
          s.outstanding[k].at <= s.lastRegisterAt <= s.outstanding[k].at + OUTSTANDING_TTL_MS)
  }

  predicate Gaps(entries: seq<Entry>) {
    forall j, k :: 0 <= j < k < |entries| ==> REGISTER_MIN_INTERVAL_MS <= entries[k].at - entries[j].at
  }

  ghost predicate Inv(s: Nego) {
    OwnWork(s) && Generations(s) && CleanStart(s) && Spaced(s) && (Active(s) ==> UnderWay(s))
  }

  // ------------------------------------------------------------------
  // Proofs about the waiting list
  // ------------------------------------------------------------------

  lemma {:induction false} PruneKeeps(entries: seq<Entry>, now: int)
    ensures var p := PruneOutstanding(entries, now);
            && (forall k :: 0 <= k < |p| ==> p[k] in entries && now - p[k].at <= OUTSTANDING_TTL_MS)
            && (forall e :: e in entries && now - e.at <= OUTSTANDING_TTL_MS ==> e in p)
            && (Gaps(entries) ==> Gaps(p))
    decreases |entries|
  {
    if entries != [] {
      var front, last := entries[..|entries| - 1], entries[|entries| - 1];
      PruneKeeps(front, now);
      assert entries == front + [last];
    }
  }

  lemma SettledKeeps(entries: seq<Entry>, headerHex: Option<string>)
    ensures var r := SettleOutstanding(entries, headerHex);
            r.Some? ==>
              && headerHex.Some? && r.value.matched in entries && r.value.matched.headerHex == ToLower(headerHex.value)
              && (forall k :: 0 <= k < |r.value.rest| ==> r.value.rest[k] in entries)
              && (Gaps(entries) ==> Gaps(r.value.rest))
  {
    var r := SettleOutstanding(entries, headerHex);
    if r.Some? {
      var i := FindHeader(entries, ToLower(headerHex.value));
      assert forall k :: 0 <= k < |r.value.rest| ==> r.value.rest[k] == entries[if k < i then k else k + 1];
    }
  }

  /**
   * A result settles a template exactly when one of the waiting ones has its
   * header, up to letter case: the first such one goes, and every other stays.
   */
  lemma {:induction false} SettlesOne(entries: seq<Entry>, headerHex: Option<string>)
    ensures var r := SettleOutstanding(entries, headerHex);
            && (r.Some? <==>
                  headerHex.Some? && exists k :: 0 <= k < |entries| && entries[k].headerHex == ToLower(headerHex.value))
            && (r.Some? ==> multiset(r.value.rest) == multiset(entries) - multiset{r.value.matched})
            && (r.Some? ==> forall k :: 0 <= k < |entries| && entries[k].headerHex == ToLower(headerHex.value) ==>
                              exists i :: 0 <= i <= k && entries[i] == r.value.matched)
  {
    hide ToLower;
    if headerHex.Some? {
      var i := FindHeader(entries, ToLower(headerHex.value));
      FirstMatch(entries, ToLower(headerHex.value));
      if i < |entries| {
        assert entries == entries[..i] + [entries[i]] + entries[i + 1..];
      }
    }
  }

  lemma {:induction false} FirstMatch(entries: seq<Entry>, want: string)
    ensures forall k :: 0 <= k < FindHeader(entries, want) ==> entries[k].headerHex != want
  {
    if entries != [] {
      FirstMatch(entries[1..], want);
    }
  }

  // ------------------------------------------------------------------
  // Every event keeps the invariants
  // ------------------------------------------------------------------

  lemma OwnWorkSubset(s: Nego, u: Nego)
    requires OwnWork(s) && s.sent <= u.sent
    requires forall h :: h in u.sent ==>
      u.lastChainInfo.Some? && BytesToHex(h.prevHash) == u.lastChainInfo.value.tipHash
    requires forall k :: 0 <= k < |u.outstanding| ==>
      u.outstanding[k] in s.outstanding || SentHex(u, u.outstanding[k].headerHex)
    requires u.grinding.Some? ==>
      (s.grinding.Some? && u.grinding.value.headerBytes == s.grinding.value.headerBytes)
      || SentBytes(u, u.grinding.value.headerBytes)
    ensures OwnWork(u)
  {
    hide BytesToHex, EncodeHeader;
    forall k | 0 <= k < |u.outstanding| ensures SentHex(u, u.outstanding[k].headerHex) {
      if u.outstanding[k] in s.outstanding {
        var j :| 0 <= j < |s.outstanding| && s.outstanding[j] == u.outstanding[k];
        assert SentHex(s, s.outstanding[j].headerHex);
      }
    }
    if u.grinding.Some? && s.grinding.Some? && u.grinding.value.headerBytes == s.grinding.value.headerBytes {
      assert SentBytes(s, s.grinding.value.headerBytes);
    }
  }

  /** A registration sends a header built on the announced tip and arms the deadline, or arms the next try. */
  lemma RegisterNowInv(s: Nego, now: int, built: Option<Header>)
    requires OwnWork(s) && Generations(s) && CleanStart(s) && Spaced(s) && s.lastChainInfo.Some?
    requires !s.stopped && s.ws.Open? && BuiltOnTip(s, built)
    requires OnTip(s, s.lastChainInfo.value.tipHash) || HasBlock(s, s.lastChainInfo.value.tipHash)
    ensures Inv(RegisterNow(s, now, built)) && UnderWay(RegisterNow(s, now, built))
  {
    hide BytesToHex, EncodeHeader, Generations, Gaps, SentHex, PruneOutstanding, ResultWait;
    var u := RegisterNow(s, now, built);
    GenerationsFrame(s, u);
    var behind := !OnTip(s, s.lastChainInfo.value.tipHash) && HasBlock(s, s.lastChainInfo.value.tipHash);
    if !behind && s.lastRegisterAt + REGISTER_MIN_INTERVAL_MS <= now && built.Some? {
      var e := Entry(BytesToHex(EncodeHeader(built.value)), now);
      var all := s.outstanding + [e];
      PruneKeeps(all, now);
      AppendGap(s.outstanding, e, s.lastRegisterAt);
      SentNow(u, built.value);
      forall k | 0 <= k < |u.outstanding|
        ensures u.outstanding[k] in s.outstanding || SentHex(u, u.outstanding[k].headerHex)
        ensures u.outstanding[k].at <= now <= u.outstanding[k].at + OUTSTANDING_TTL_MS
      {
        assert u.outstanding[k] in all;
      }
      OwnWorkSubset(s, u);
    } else {
      OwnWorkSubset(s, u);
    }
  }

  lemma SentNow(u: Nego, h: Header)
    requires h in u.sent
    ensures SentHex(u, BytesToHex(EncodeHeader(h)))
  {
    hide BytesToHex, EncodeHeader;
  }

  lemma AppendGap(entries: seq<Entry>, e: Entry, last: int)
    requires Gaps(entries) && last + REGISTER_MIN_INTERVAL_MS <= e.at
    requires forall k :: 0 <= k < |entries| ==> entries[k].at <= last
    ensures Gaps(entries + [e])
  {
  }

  lemma GenerationsFrame(s: Nego, u: Nego)
    requires Generations(s)
    requires u.registering == s.registering && u.pending == s.pending && u.socketGen == s.socketGen
    requires u.aborted == s.aborted && u.stopped == s.stopped && u.ws == s.ws && u.reconnectTimer == s.reconnectTimer
    ensures Generations(u)
  {
  }

  lemma RegisterTemplateInv(s: Nego, now: int, built: Option<Header>)
    requires OwnWork(s) && Generations(s) && CleanStart(s) && Spaced(s) && BuiltOnTip(s, built)
    ensures Inv(RegisterTemplate(s, now, built))
  {
    hide BytesToHex, EncodeHeader, Gaps, SentHex, SentBytes, RegisterNow, OwnWork;
    var u := RegisterTemplate(s, now, built);
    if !SessionOver(s, s.socketGen) && s.lastChainInfo.Some? && s.registering != Some(s.socketGen) {
      var info := s.lastChainInfo.value;
      SameWork(s, s.(registering := None));
      if OnTip(s, info.tipHash) || HasBlock(s, info.tipHash) {
        SlotFree(s);
        RegisterNowInv(s.(registering := None), now, built);
      } else {
        SameWork(s, u);
      }
    } else {
      SameWork(s, u);
    }
  }

  lemma SlotFree(s: Nego)
    requires Generations(s) && CleanStart(s) && Spaced(s) && s.registering != Some(s.socketGen)
    ensures Generations(s.(registering := None)) && CleanStart(s.(registering := None))
    ensures Spaced(s.(registering := None))
  {
    hide Gaps;
  }

  lemma SameWork(s: Nego, u: Nego)
    requires OwnWork(s) && u.sent == s.sent && u.lastChainInfo == s.lastChainInfo
    requires u.outstanding == s.outstanding && u.grinding == s.grinding
    ensures OwnWork(u)
  {
    hide BytesToHex, EncodeHeader;
    OwnWorkSubset(s, u);
  }

  lemma AfterCatchUpInv(s: Nego, gen: nat, r: CatchUp, now: int, built: Option<Header>)
    requires Inv(s) && Enabled(s, CatchUpEnds(gen, r, now, built))
    ensures Inv(AfterCatchUp(s, gen, r, now, built))
  {
    hide BytesToHex, EncodeHeader, Gaps, SentHex, SentBytes, RegisterNow, OwnWork;
    var s', u := Released(s, gen), AfterCatchUp(s, gen, r, now, built);
    SameWork(s, s');
    ReleasedGenerations(s, gen);
    if !r.Aborted? && !SessionOver(s, gen) && s.lastChainInfo.Some? {
      if !r.Failed? && (OnTip(s, s.lastChainInfo.value.tipHash) || HasBlock(s, s.lastChainInfo.value.tipHash)) {
        RegisterNowInv(s', now, built);
      } else {
        SameWork(s, u);
      }
    }
  }

  lemma ReleasedGenerations(s: Nego, gen: nat)
    requires Generations(s) && gen in s.pending
    ensures Generations(Released(s, gen))
    ensures gen != s.socketGen ==>
      (Released(s, gen).registering == Some(s.socketGen) <==> s.registering == Some(s.socketGen))
  {
  }

  lemma ChainInfoInv(s: Nego, info: Info)
    requires Inv(s) && Enabled(s, ChainInfoArrives(info)) && !s.stopped
    ensures Inv(OnChainInfo(s, info))
  {
    hide BytesToHex, EncodeHeader, Gaps, SentHex, SentBytes, Generations;
    var u := OnChainInfo(s, info);
    GenerationsFrame(s, u);
    NoGaps();
    if u.sent == s.sent {
      OwnWorkSubset(s, u);
    }
  }

  lemma TemplateResultInv(s: Nego, m: Result)
    requires Inv(s) && Enabled(s, TemplateResultArrives(m)) && !s.stopped
    ensures Inv(OnTemplateResult(s, m))
  {
    if m.accepted && SettleOutstanding(s.outstanding, m.headerHex).Some? {
      SettledResultInv(s, m);
    } else {
      UnsettledResultInv(s, m);
    }
  }

  lemma UnsettledResultInv(s: Nego, m: Result)
    requires Inv(s) && Enabled(s, TemplateResultArrives(m)) && !s.stopped
    requires !m.accepted || SettleOutstanding(s.outstanding, m.headerHex).None?
    ensures Inv(OnTemplateResult(s, m))
  {
    hide BytesToHex, EncodeHeader, Gaps, Generations, HexToBytes, SettleOutstanding, SentHex, SentBytes, IsHexTarget;
    var u := OnTemplateResult(s, m);
    GenerationsFrame(s, u);
    NoGaps();
    OwnWorkSubset(s, u);
    RestSpaced(s, u);
  }

  lemma SettledResultInv(s: Nego, m: Result)
    requires Inv(s) && Enabled(s, TemplateResultArrives(m)) && !s.stopped
    requires m.accepted && SettleOutstanding(s.outstanding, m.headerHex).Some?
    ensures Inv(OnTemplateResult(s, m))
  {
    hide OnTemplateResult, OwnWork, Spaced, Generations, CleanStart, Active, UnderWay, SettleOutstanding;
    SettledShape(s, m);
    SettledWork(s, m);
  }

  lemma SettledShape(s: Nego, m: Result)
    requires OwnWork(s) && Generations(s) && CleanStart(s) && (s.ws.Open? || s.ws.Closing?) && !s.stopped
    requires m.accepted && SettleOutstanding(s.outstanding, m.headerHex).Some?
    ensures var u := OnTemplateResult(s, m); Generations(u) && CleanStart(u) && (Active(u) ==> UnderWay(u))
  {
    hide Generations, HexToBytes, SettleOutstanding, IsHexTarget, OwnWork, Spaced;
    SettledMatches(s, m);
    GenerationsFrame(s, OnTemplateResult(s, m));
  }

  lemma SettledMatches(s: Nego, m: Result)
    requires OwnWork(s) && SettleOutstanding(s.outstanding, m.headerHex).Some?
    ensures m.headerHex.Some? && HexToBytes(m.headerHex.value).Some?
    ensures SentBytes(s, HexToBytes(m.headerHex.value).value)
    ensures s.outstanding != []
  {
    hide BytesToHex, EncodeHeader, Gaps, HexToBytes, SettleOutstanding, SentBytes, ToLower, OwnWork;
    SettledKeeps(s.outstanding, m.headerHex);
    MatchedIsSent(s, SettleOutstanding(s.outstanding, m.headerHex).value.matched, m.headerHex.value);
  }

  lemma SettledWork(s: Nego, m: Result)
    requires OwnWork(s) && Spaced(s) && !s.stopped
    requires m.accepted && SettleOutstanding(s.outstanding, m.headerHex).Some?
    ensures OwnWork(OnTemplateResult(s, m)) && Spaced(OnTemplateResult(s, m))
  {
    hide BytesToHex, EncodeHeader, Gaps, HexToBytes, SettleOutstanding, SentHex, SentBytes, ToLower, IsHexTarget,
      OwnWork;
    var u := OnTemplateResult(s, m);
    SettledKeeps(s.outstanding, m.headerHex);
    SettledMatches(s, m);
    SentFrame(s, u);
    assert forall h :: h in u.sent ==>
      u.lastChainInfo.Some? && BytesToHex(h.prevHash) == u.lastChainInfo.value.tipHash by {
      SentOnTip(s);
    }
    OwnWorkSubset(s, u);
    RestSpaced(s, u);
  }

  lemma SentOnTip(s: Nego)
    requires OwnWork(s)
    ensures forall h :: h in s.sent ==> s.lastChainInfo.Some? && BytesToHex(h.prevHash) == s.lastChainInfo.value.tipHash
  {
    hide BytesToHex;
  }

  lemma SentFrame(s: Nego, u: Nego)
    requires s.sent == u.sent
    ensures forall bytes :: SentBytes(s, bytes) == SentBytes(u, bytes)
  {
    hide EncodeHeader;
  }

  lemma RestSpaced(s: Nego, u: Nego)
    requires Spaced(s) && u.lastRegisterAt == s.lastRegisterAt && Gaps(u.outstanding)
    requires forall k :: 0 <= k < |u.outstanding| ==> u.outstanding[k] in s.outstanding
    ensures Spaced(u)
  {
    hide Gaps;
  }

  /** A header that matches a waiting one in hex, up to case, decodes to exactly the bytes that were sent. */
  lemma MatchedIsSent(s: Nego, e: Entry, headerHex: string)
    requires OwnWork(s) && e in s.outstanding && e.headerHex == ToLower(headerHex)
    ensures HexToBytes(headerHex).Some? && SentBytes(s, HexToBytes(headerHex).value)
  {
    hide BytesToHex, EncodeHeader, HexToBytes, ToLower;
    var k :| 0 <= k < |s.outstanding| && s.outstanding[k] == e;
    assert SentHex(s, s.outstanding[k].headerHex);
    var h :| h in s.sent && BytesToHex(EncodeHeader(h)) == e.headerHex;
    HexMatchDecodes(headerHex, EncodeHeader(h));
  }

  lemma SocketInv(s: Nego, e: Event)
    requires Inv(s) && Enabled(s, e) && (e.Connect? || e.SocketOpens? || e.SocketCloses? || e.Stop?)
    ensures Inv(Next(s, e))
  {
    hide BytesToHex, EncodeHeader, Gaps, SentHex, SentBytes;
    var u := Next(s, e);
    NoGaps();
    if u.sent == s.sent {
      OwnWorkSubset(s, u);
    }
  }

  lemma NoGaps()
    ensures Gaps([])
  {
  }

  lemma OtherInv(s: Nego, e: Event)
    requires Inv(s) && Enabled(s, e)
    requires e.ShareTargetArrives? || e.ShareResultArrives? || e.WatchdogFires? || e.Exhausted? || e.GrindStalls?
             || e.Invalidated? || e.ChainMoves?
    ensures Inv(Next(s, e))
  {
    hide BytesToHex, EncodeHeader, Gaps, SentHex, SentBytes, Generations, IsHexTarget;
    var u := Next(s, e);
    GenerationsFrame(s, u);
    OwnWorkSubset(s, u);
  }

  lemma NextInv(s: Nego, e: Event)
    requires Inv(s) && Enabled(s, e)
    ensures Inv(Next(s, e))
  {
    hide Inv, OnChainInfo, OnTemplateResult, RegisterTemplate, AfterCatchUp, OnClose, OnConnect, DropGrind,
      OnShareTarget;
    match e
    case ChainInfoArrives(info) => if !s.stopped { ChainInfoInv(s, info); }
    case TemplateResultArrives(m) => if !s.stopped { TemplateResultInv(s, m); }
    case RegisterFires(now, built) => TimerTaken(s); RegisterTemplateInv(s.(registerTimer := None), now, built);
    case CatchUpEnds(gen, r, now, built) => AfterCatchUpInv(s, gen, r, now, built);
    case Connect(_) => SocketInv(s, e);
    case SocketOpens => SocketInv(s, e);
    case SocketCloses(_) => SocketInv(s, e);
    case Stop => SocketInv(s, e);
    case _ => OtherInv(s, e);
  }

  lemma TimerTaken(s: Nego)
    requires Inv(s)
    ensures var u := s.(registerTimer := None); OwnWork(u) && Generations(u) && CleanStart(u) && Spaced(u)
  {
    hide BytesToHex, EncodeHeader, Gaps, OwnWork, Generations;
    var u := s.(registerTimer := None);
    GenerationsFrame(s, u);
    SameWork(s, u);
  }

  // ------------------------------------------------------------------
  // Runs
  // ------------------------------------------------------------------

  /** Where a run leads; an event that cannot happen then is skipped. */
  ghost function After(tip: Hash32, known: set<Hash32>, events: seq<Event>): Nego {
    if events == [] then Initial(tip, known)
    else
      var s := After(tip, known, events[..|events| - 1]);
      if Enabled(s, events[|events| - 1]) then Next(s, events[|events| - 1]) else s
  }

  lemma {:induction false} RunInv(tip: Hash32, known: set<Hash32>, events: seq<Event>)
    ensures Inv(After(tip, known, events))
    decreases |events|
  {
    hide Inv, Next, Enabled;
    if events == [] {
      InitialInv(tip, known);
    } else {
      RunInv(tip, known, events[..|events| - 1]);
      var s := After(tip, known, events[..|events| - 1]);
      if Enabled(s, events[|events| - 1]) {
        NextInv(s, events[|events| - 1]);
      }
    }
  }

  lemma InitialInv(tip: Hash32, known: set<Hash32>)
    ensures Inv(Initial(tip, known))
  {
  }

  /**
   * No permanent stall: whatever the pool, the network and the timers do, an open
   * session that has received chain_info is grinding, or has a registration armed
   * or in progress, or waits for an answer with a deadline.
   */
  lemma NeverStalls(tip: Hash32, known: set<Hash32>, events: seq<Event>)
    ensures var s := After(tip, known, events);
            !s.stopped && s.ws.Open? && s.gotInfo ==> UnderWay(s)
  {
    RunInv(tip, known, events);
  }

  /** Without a socket a reconnect is armed, so a lost connection is always retried. */
  lemma AlwaysReconnects(tip: Hash32, known: set<Hash32>, events: seq<Event>)
    ensures var s := After(tip, known, events); !s.stopped && s.ws.NoSocket? ==> s.reconnectTimer
  {
    RunInv(tip, known, events);
  }

  /**
   * Whatever the pool sends, the header being ground is byte for byte one this
   * client built and sent on the current socket since the announced tip last
   * changed, and it extends that tip.
   */
  lemma GrindsOnlyOwnWork(tip: Hash32, known: set<Hash32>, events: seq<Event>)
    ensures var s := After(tip, known, events);
            s.grinding.Some? ==>
              && s.lastChainInfo.Some?
              && exists h :: h in s.sent && EncodeHeader(h) == s.grinding.value.headerBytes
                             && BytesToHex(h.prevHash) == s.lastChainInfo.value.tipHash
  {
    hide BytesToHex, EncodeHeader;
    RunInv(tip, known, events);
    var s := After(tip, known, events);
    if s.grinding.Some? {
      assert SentBytes(s, s.grinding.value.headerBytes);
    }
  }

  /** The waiting list needs no count cap: it can never hold more than 819 registrations. */
  lemma WaitingListBounded(tip: Hash32, known: set<Hash32>, events: seq<Event>)
    ensures |After(tip, known, events).outstanding| <= 819
  {
    RunInv(tip, known, events);
    var s := After(tip, known, events);
    if s.outstanding != [] {
      GapsAddUp(s.outstanding);
    }
  }

  lemma {:induction false} GapsAddUp(entries: seq<Entry>)
    requires Gaps(entries) && entries != []
    ensures (|entries| - 1) * REGISTER_MIN_INTERVAL_MS <= entries[|entries| - 1].at - entries[0].at
  {
    if |entries| > 1 {
      GapsAddUp(entries[..|entries| - 1]);
    }
  }

  /** The wait for an answer grows but is always between 12 and 120 seconds. */
  lemma {:induction false} ResultWaitBounded(strikes: nat)
    ensures TEMPLATE_RESULT_TIMEOUT_MS <= ResultWait(strikes) <= TEMPLATE_RESULT_TIMEOUT_MAX_MS
    ensures ResultWait(strikes) <= ResultWait(strikes + 1)
    ensures Doubled(TEMPLATE_RESULT_TIMEOUT_MS, strikes) >= TEMPLATE_RESULT_TIMEOUT_MS
  {
    if strikes > 0 {
      ResultWaitBounded(strikes - 1);
    }
  }
}
