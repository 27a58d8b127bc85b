/**
 * The client whose session Negotiated.dfy describes: the closures of
 * runNegotiatedPoolClient (src/minerd/negotiatedClient.ts 726-1271) as methods
 * over the variables they share, each proved to be the machine's step.
 */
module NegotiatedClient {
  import opened Binary
  import opened BlockCodec
  import opened Crypto
  import opened Negotiated

  class Client {
    var stopped: bool
    var ws: Sock
    var socketGen: nat
    var lastChainInfo: Option<Info>
    var grinding: Option<Grind>
    var outstanding: seq<Entry>
    var inFlight: nat
    var registeringGen: Option<nat>
    var watchdogStrikes: nat
    var lastRegisterAt: int
    var registerTimer: Option<int>
    var resultWatchdog: Option<int>
    var reconnectTimer: bool
    // The outside: suspended registrations, and our chain.
    var pending: map<nat, Info>
    var tip: Hash32
    var known: set<Hash32>
    ghost var aborted: set<nat>
    ghost var sent: set<Header>
    ghost var gotInfo: bool

    ghost function View(): Nego
      reads this
    {
      Nego(stopped, ws, socketGen, lastChainInfo, grinding, outstanding, inFlight, registeringGen, watchdogStrikes,
           lastRegisterAt, registerTimer, resultWatchdog, reconnectTimer, pending, aborted, tip, known, sent, gotInfo)
    }

    constructor (tip: Hash32, known: set<Hash32>)
      ensures View() == Initial(tip, known)
    {
      stopped, ws, socketGen, lastChainInfo, grinding, outstanding := false, NoSocket, 0, None, None, [];
      inFlight, registeringGen, watchdogStrikes, lastRegisterAt := 0, None, 0, 0;
      registerTimer, resultWatchdog, reconnectTimer := None, None, true;
      pending, aborted, sent, gotInfo := map[], {}, {}, false;
      this.tip, this.known := tip, known;
    }

    function ChainHas(hex: string): (has: bool)
      reads this
      ensures has == HasBlock(View(), hex)
    {
      exists h :: h in known && BytesToHex(h) == hex
    }

    method ScheduleRegister(delay: int)
      modifies this
      ensures View() == Schedule(old(View()), delay)
    {
      if stopped {
        return;
      }
      registerTimer := Some(delay);
    }

    // ----------------------------------------------------------------
    // Registering
    // ----------------------------------------------------------------

    /** `built` is what building a block gives: its header, or None when it throws. */
    method RegisterNow(now: int, built: Option<Header>)
      requires lastChainInfo.Some?
      modifies this
      ensures View() == Negotiated.RegisterNow(old(View()), now, built)
    {
      hide BytesToHex, EncodeHeader, PruneOutstanding, ResultWait, HasBlock;
      var latest := lastChainInfo.value;
      if latest.tipHash != BytesToHex(tip) && ChainHas(latest.tipHash) {
        ScheduleRegister(RETRY_BUILD_DELAY_MS);
        return;
      }
      var wait := lastRegisterAt + REGISTER_MIN_INTERVAL_MS - now;
      if wait > 0 {
        ScheduleRegister(wait);
        return;
      }
      if built.None? {
        ScheduleRegister(RETRY_BUILD_DELAY_MS);
        return;
      }
      lastRegisterAt := now;
      SendTemplate(built.value, now);
    }

    method SendTemplate(h: Header, now: int)
      modifies this
      ensures View() == old(View()).(
        outstanding := PruneOutstanding(old(outstanding) + [Entry(BytesToHex(EncodeHeader(h)), now)], now),
        inFlight := old(inFlight) + 1, sent := old(sent) + {h},
        resultWatchdog := Some(ResultWait(old(watchdogStrikes))))
    {
      hide BytesToHex, EncodeHeader, PruneOutstanding, ResultWait;
      outstanding := PruneOutstanding(outstanding + [Entry(BytesToHex(EncodeHeader(h)), now)], now);
      inFlight := inFlight + 1;
      sent := sent + {h};
      resultWatchdog := Some(ResultWait(watchdogStrikes));
    }

    /** The register timer fires. The call may suspend in a catch-up; `ResumeRegister` continues it. */
    method RegisterTemplate(now: int, built: Option<Header>)
      requires registerTimer.Some?
      modifies this
      ensures View() == Negotiated.RegisterTemplate(old(View()).(registerTimer := None), now, built)
    {
      hide BytesToHex, Negotiated.RegisterNow;
      registerTimer := None;
      if stopped || !ws.Open? || lastChainInfo.None? {
        return;
      }
      var info, gen := lastChainInfo.value, socketGen;
      if registeringGen == Some(gen) {
        ScheduleRegister(RETRY_REGISTER_BUSY_MS);
        return;
      }
      registeringGen := Some(gen);
      if BytesToHex(tip) != info.tipHash && !ChainHas(info.tipHash) {
        pending := pending[gen := info];
        return;
      }
      registeringGen := None;
      RegisterNow(now, built);
    }

    /** The catch-up a registration of generation `gen` awaited has ended. */
    method ResumeRegister(gen: nat, outcome: CatchUp, now: int, built: Option<Header>)
      requires gen in pending
      modifies this
      ensures View() == AfterCatchUp(old(View()), gen, outcome, now, built)
    {
      hide BytesToHex, Negotiated.RegisterNow;
      pending := pending - {gen};
      var over := stopped || gen != socketGen || !ws.Open?;
      if registeringGen == Some(gen) {
        registeringGen := None;
      }
      if outcome.Aborted? || over || lastChainInfo.None? {
        return;
      }
      var latest := lastChainInfo.value;
      if outcome.Failed? || !(BytesToHex(tip) == latest.tipHash || ChainHas(latest.tipHash)) {
        ScheduleRegister(RETRY_BUILD_DELAY_MS);
        return;
      }
      RegisterNow(now, built);
    }

    method OnResultWatchdog()
      requires resultWatchdog.Some?
      modifies this
      ensures View() == OnWatchdog(old(View()))
    {
      resultWatchdog := None;
      watchdogStrikes := watchdogStrikes + 1;
      ScheduleRegister(0);
    }

    // ----------------------------------------------------------------
    // Messages
    // ----------------------------------------------------------------

    method SetChainInfo(info: Info)
      modifies this
      ensures View() == old(View()).(lastChainInfo := Some(info), gotInfo := true)
    {
      lastChainInfo := Some(info);
      gotInfo := true;
    }

    /** Nothing waits for an answer any more; with a new tip, what was sent no longer counts either. */
    method ForgetOutstanding(newTip: bool)
      modifies this
      ensures View() == old(View()).(outstanding := [], sent := if newTip then {} else old(sent))
    {
      outstanding := [];
      sent := if newTip then {} else sent;
    }

    method StopGrind()
      modifies this
      ensures View() == old(View()).(grinding := None)
    {
      grinding := None;
    }

    method HandleChainInfo(info: Info)
      requires !stopped
      modifies this
      ensures View() == OnChainInfo(old(View()), info)
    {
      var prevTip := if lastChainInfo.Some? then Some(lastChainInfo.value.tipHash) else None;
      SetChainInfo(info);
      if (grinding.Some? || |outstanding| > 0) && Some(info.tipHash) == prevTip {
        return;
      }
      if grinding.Some? {
        StopGrind();
      }
      if Some(info.tipHash) != prevTip {
        ForgetOutstanding(true);
      }
      ScheduleRegister(0);
    }

    method HandleTemplateResult(m: Result)
      requires !stopped
      modifies this
      ensures View() == OnTemplateResult(old(View()), m)
    {
      hide SettleOutstanding, HexToBytes, IsHexTarget;
      inFlight := if inFlight > 0 then inFlight - 1 else 0;
      var action := ClassifyTemplateResult(m.accepted, inFlight);
      if action.IgnoreAmbiguous? {
        return;
      }
      if action.SettleAndRetry? {
        Answered([]);
        ScheduleRegister(if m.rateLimited then REGISTER_MIN_INTERVAL_MS else RETRY_BUILD_DELAY_MS);
        return;
      }
      SettledHasHeader(outstanding, m.headerHex);
      var settled := SettleOutstanding(outstanding, m.headerHex);
      if settled.None? {
        if inFlight == 0 {
          resultWatchdog := None;
          ScheduleRegister(RETRY_BUILD_DELAY_MS);
        }
        return;
      }
      Answered(settled.value.rest);
      if !IsHexTarget(m.targetHex) {
        ScheduleRegister(RETRY_BUILD_DELAY_MS);
        return;
      }
      TargetIsText(m.targetHex);
      var bytes := HexToBytes(m.headerHex.value);
      if bytes.Some? {
        grinding := Some(Grind(m.templateId, bytes.value, m.targetHex.value));
      }
    }

    /** A correlated answer: the deadline and the back-off are done with. */
    method Answered(rest: seq<Entry>)
      modifies this
      ensures View() == old(View()).(resultWatchdog := None, outstanding := rest, watchdogStrikes := 0)
    {
      resultWatchdog := None;
      outstanding := rest;
      watchdogStrikes := 0;
    }

    method HandleShareTarget(templateId: string, targetHex: Option<string>)
      modifies this
      ensures View() == OnShareTarget(old(View()), templateId, targetHex)
    {
      if grinding.Some? && templateId == grinding.value.templateId && IsHexTarget(targetHex) {
        grinding := Some(grinding.value.(targetHex := targetHex.value));
      }
    }

    method HandleShareResult(accepted: bool, stale: bool)
      requires !stopped
      modifies this
      ensures View() == if !accepted && old(grinding).Some? && stale then DropGrind(old(View())) else old(View())
    {
      if !accepted && grinding.Some? && stale {
        grinding := None;
        ScheduleRegister(0);
      }
    }

    /** The nonce space is used up, or the stalled grind is respawned. */
    method RestartWork()
      modifies this
      ensures View() == DropGrind(old(View()))
    {
      grinding := None;
      ScheduleRegister(0);
    }

    // ----------------------------------------------------------------
    // The connection
    // ----------------------------------------------------------------

    method Connect(throws: bool)
      requires reconnectTimer && !stopped
      modifies this
      ensures View() == if throws then old(View()) else OnConnect(old(View()))
    {
      if throws {
        reconnectTimer := true;
        return;
      }
      aborted := aborted + {socketGen};
      socketGen := socketGen + 1;
      ws := Connecting;
      reconnectTimer := false;
    }

    method SocketClosed()
      requires !ws.NoSocket? && !stopped
      modifies this
      ensures View() == OnClose(old(View()))
    {
      ws := NoSocket;
      AbortCatchUp();
      AbandonWork();
      ClearTimers(true);
    }

    /** The fence of this generation's catch-up. */
    method AbortCatchUp()
      modifies this
      ensures View() == old(View()).(aborted := old(aborted) + {socketGen})
    {
      aborted := aborted + {socketGen};
    }

    method ClearTimers(reconnect: bool)
      modifies this
      ensures View() == old(View()).(resultWatchdog := None, registerTimer := None, reconnectTimer := reconnect)
    {
      resultWatchdog := None;
      registerTimer := None;
      reconnectTimer := reconnect;
    }

    /** Answers to the old socket can no longer arrive. */
    method AbandonWork()
      modifies this
      ensures View() == old(View()).(grinding := None, outstanding := [], inFlight := 0, sent := {}, gotInfo := false)
    {
      grinding := None;
      inFlight := 0;
      gotInfo := false;
      ForgetOutstanding(true);
    }

    method Teardown()
      modifies this
      ensures View() == OnStop(old(View()))
    {
      stopped := true;
      ClearTimers(false);
      AbortCatchUp();
    }
  }

  lemma SettledHasHeader(entries: seq<Entry>, headerHex: Option<string>)
    ensures SettleOutstanding(entries, headerHex).Some? ==> headerHex.Some?
  {
  }

  lemma TargetIsText(targetHex: Option<string>)
    requires IsHexTarget(targetHex)
    ensures targetHex.Some?
  {
  }
}
