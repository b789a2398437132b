/**
 * The stateful part of the copy-trade server (server/copy-trade-server.ts):
 * the engine flag, the last known balance and the balance pollers that form
 * the circuit breaker, the start-up sequence, message handling and what a
 * newly connected client is sent. Timers become a single poller state and
 * each timer tick is a method call; balance reads, exchange answers and the
 * clock are method inputs. Broadcasts are appended to `broadcasts`.
 */
module Server {
  import opened Common
  import opened Text
  import opened Types
  import opened Pipeline
  import opened Sanitise

  /** A balance below this pauses the engine at start-up; one at or above it resumes a paused engine. */
  const CircuitBreakerThreshold: real := 2.0

  /** Which balance timer runs: none, the regular 30-second poll or the 60-second recovery poll. */
  datatype Poller = NoPoller | Normal30s | Recovery60s

  datatype EngineState = ACTIVE | PAUSED

  /** What the server sends to its clients; message texts are not modelled. */
  datatype OutgoingMessage =
    | StatusOut(msg: StatusMessage)
    | BalanceOut(usdce: real, timestamp: int)
    | EngineOut(state: EngineState)

  /** The exchange client's signature scheme. */
  datatype SignatureType = EOA | PolyProxy | PolyGnosisSafe

  /** The SIGNATURE_TYPE setting: 1 and 2 select the proxy schemes, anything else (or an unparsable value) EOA. */
  function SignatureFor(raw: Option<int>): (r: SignatureType)
    ensures r == PolyProxy <==> raw == Some(1)
    ensures r == PolyGnosisSafe <==> raw == Some(2)
  {
    match raw
    case Some(1) => PolyProxy
    case Some(2) => PolyGnosisSafe
    case _ => EOA
  }

  /** Status messages as broadcasts. */
  function AsBroadcasts(ev: seq<StatusMessage>): (r: seq<OutgoingMessage>)
    ensures |r| == |ev|
    ensures forall i :: 0 <= i < |ev| ==> r[i] == StatusOut(ev[i])
  {
    if ev == [] then [] else [StatusOut(ev[0])] + AsBroadcasts(ev[1..])
  }

  function EngineStateOf(paused: bool): EngineState {
    if paused then PAUSED else ACTIVE
  }

  /** A connection is refused only when a token is configured (non-empty) and the query token differs. */
  predicate TokenAccepted(expected: Option<string>, token: Option<string>) {
    !(expected.Some? && expected.value != "" && token != expected)
  }

  lemma TokenCheck(expected: Option<string>, token: Option<string>)
    ensures expected.None? || expected == Some("") ==> TokenAccepted(expected, token)
    ensures expected.Some? && expected.value != "" ==> (TokenAccepted(expected, token) <==> token == expected)
  {
  }

  /** `address.slice(2)`. */
  function DropPrefix(s: string): string {
    if |s| >= 2 then s[2..] else ""
  }

  /** The `eth_call` data for ERC-20 `balanceOf(address)`: the 4-byte selector 0x70a08231 followed by
      the address, lower-cased and left-padded with zeros to 64 hex digits. */
  function BalanceOfCalldata(address: string): string {
    "0x70a08231" + PadStart(Lower(DropPrefix(address)), 64, '0')
  }

  /** For a 0x-prefixed 40-digit address the calldata is 74 characters: the selector, 24 zero digits,
      then the address's digits in lower case. */
  lemma BalanceOfCalldataLayout(address: string)
    requires |address| == 42
    ensures var d := BalanceOfCalldata(address);
      && |d| == 74
      && d[..10] == "0x70a08231"
      && (forall i :: 10 <= i < 34 ==> d[i] == '0')
      && d[34..] == Lower(address[2..])
      && (forall i :: 34 <= i < 74 ==> !IsUpper(d[i]))
  {
    var body := Lower(DropPrefix(address));
    var p := PadStart(body, 64, '0');
    var d := BalanceOfCalldata(address);
    assert |body| == 40;
    assert d == "0x70a08231" + p;
    forall i | 10 <= i < 34 ensures d[i] == '0' {
      assert d[i] == p[i - 10];
    }
    assert d[34..] == p[24..];
    LowerIdempotent(address[2..]);
  }

  class CopyTradeServer {
    var hasClient: bool
    var signatureType: SignatureType
    var walletAddress: string
    var paused: bool
    var lastBalance: real
    var poller: Poller
    var stopped: bool
    var broadcasts: seq<OutgoingMessage>

    /** At most one balance timer runs (one poller value), and until shutdown the engine is paused
        exactly when the recovery poll runs. */
    ghost predicate Valid()
      reads this
    {
      stopped || (paused <==> poller == Recovery60s)
    }

    constructor()
      ensures Valid()
      ensures !hasClient && signatureType == EOA && walletAddress == "" && !paused && lastBalance == -1.0
      ensures poller == NoPoller && !stopped && broadcasts == []
    {
      hasClient := false;
      signatureType := EOA;
      walletAddress := "";
      paused := false;
      lastBalance := -1.0;
      poller := NoPoller;
      stopped := false;
      broadcasts := [];
    }

    /** activateCircuitBreaker: a no-op when already paused; otherwise pause, announce it, stop the
        regular poll and start the recovery poll. */
    method ActivateCircuitBreaker()
      requires Valid()
      modifies this
      ensures Valid()
      ensures old(paused) ==> unchanged(this)
      ensures !old(paused) ==> paused && poller == Recovery60s && broadcasts == old(broadcasts) + [EngineOut(PAUSED)]
      ensures hasClient == old(hasClient) && signatureType == old(signatureType) && walletAddress == old(walletAddress)
      ensures lastBalance == old(lastBalance) && stopped == old(stopped)
    {
      if paused {
        return;
      }
      paused := true;
      broadcasts := broadcasts + [EngineOut(PAUSED)];
      poller := Recovery60s;
    }

    /** One tick of the regular 30-second poll (broadcastBalance): a successful read is recorded and
        broadcast, a failed one changes nothing. It never pauses the engine. */
    method RegularPollTick(read: Result<real, string>, now: int)
      requires Valid() && poller == Normal30s
      modifies this
      ensures Valid()
      ensures paused == old(paused) && poller == old(poller) && stopped == old(stopped)
      ensures hasClient == old(hasClient) && signatureType == old(signatureType) && walletAddress == old(walletAddress)
      ensures read.Ok? ==> lastBalance == read.value && broadcasts == old(broadcasts) + [BalanceOut(read.value, now)]
      ensures read.Err? ==> lastBalance == old(lastBalance) && broadcasts == old(broadcasts)
    {
      if read.Ok? {
        lastBalance := read.value;
        broadcasts := broadcasts + [BalanceOut(read.value, now)];
      }
    }

    /** One tick of the 60-second recovery poll: a successful read is recorded and broadcast; a balance of
        at least 2 also resumes the engine and swaps back to the regular poll. A failed read changes nothing. */
    method RecoveryTick(read: Result<real, string>, now: int)
      requires Valid() && poller == Recovery60s
      modifies this
      ensures Valid()
      ensures stopped == old(stopped)
      ensures hasClient == old(hasClient) && signatureType == old(signatureType) && walletAddress == old(walletAddress)
      ensures read.Err? ==> unchanged(this)
      ensures read.Ok? && read.value >= CircuitBreakerThreshold ==>
        && !paused && poller == Normal30s && lastBalance == read.value
        && broadcasts == old(broadcasts) + [BalanceOut(read.value, now), EngineOut(ACTIVE)]
      ensures read.Ok? && read.value < CircuitBreakerThreshold ==>
        && paused == old(paused) && poller == Recovery60s && lastBalance == read.value
        && broadcasts == old(broadcasts) + [BalanceOut(read.value, now)]
    {
      if read.Err? {
        return;
      }
      var bal := read.value;
      lastBalance := bal;
      broadcasts := broadcasts + [BalanceOut(bal, now)];
      if bal >= CircuitBreakerThreshold {
        paused := false;
        poller := Normal30s;
        broadcasts := broadcasts + [EngineOut(ACTIVE)];
      }
    }

    /** initClobClient. Without a private key nothing happens. Otherwise the funder address is the proxy
        address when set, else the signer's; with credentials the client exists; with a start-up balance
        it is recorded, and a balance below 2 trips the breaker. Any failure stops the sequence where it
        happened. `signer` is the key's address or the error building the wallet. */
    method InitClobClient(privateKey: string, proxyAddress: string, sigSetting: Option<int>,
                          signer: Result<string, string>, creds: Result<(), string>, balance: Result<real, string>)
      requires Valid()
      modifies this
      ensures Valid()
      ensures privateKey == "" || signer.Err? ==> unchanged(this)
      ensures privateKey != "" && signer.Ok? ==>
        walletAddress == (if proxyAddress != "" then proxyAddress else signer.value)
      ensures hasClient == (old(hasClient) || (privateKey != "" && signer.Ok? && creds.Ok?))
      ensures privateKey != "" && signer.Ok? && creds.Ok? ==> signatureType == SignatureFor(sigSetting)
      ensures lastBalance == (if privateKey != "" && signer.Ok? && creds.Ok? && balance.Ok? then balance.value else old(lastBalance))
      ensures paused == (old(paused) || (privateKey != "" && signer.Ok? && creds.Ok? && balance.Ok? &&
                                         balance.value < CircuitBreakerThreshold))
      ensures var trip := privateKey != "" && signer.Ok? && creds.Ok? && balance.Ok? &&
                          balance.value < CircuitBreakerThreshold && !old(paused);
        && broadcasts == old(broadcasts) + (if trip then [EngineOut(PAUSED)] else [])
        && poller == (if trip then Recovery60s else old(poller))
      ensures !(privateKey != "" && signer.Ok? && creds.Ok?) ==> signatureType == old(signatureType)
      ensures stopped == old(stopped)
    {
      if privateKey == "" {
        return;
      }
      if signer.Err? {
        return;
      }
      walletAddress := if proxyAddress != "" then proxyAddress else signer.value;
      if creds.Err? {
        return;
      }
      signatureType := SignatureFor(sigSetting);
      hasClient := true;
      if balance.Err? {
        return;
      }
      lastBalance := balance.value;
      if balance.value < CircuitBreakerThreshold {
        ActivateCircuitBreaker();
      }
    }

    /** Starting the regular poll after start-up: only with a wallet address and an active engine. */
    method StartPolling()
      requires Valid() && poller != Normal30s
      modifies this
      ensures Valid()
      ensures poller == (if old(walletAddress) != "" && !old(paused) then Normal30s else old(poller))
      ensures paused == old(paused) && lastBalance == old(lastBalance) && broadcasts == old(broadcasts)
      ensures hasClient == old(hasClient) && walletAddress == old(walletAddress) && stopped == old(stopped)
    {
      if walletAddress != "" && !paused {
        poller := Normal30s;
      }
    }

    /** Shutdown clears both timers. */
    method Shutdown()
      requires Valid()
      modifies this
      ensures Valid()
      ensures poller == NoPoller && stopped
      ensures paused == old(paused) && lastBalance == old(lastBalance) && broadcasts == old(broadcasts)
      ensures hasClient == old(hasClient) && walletAddress == old(walletAddress)
    {
      poller := NoPoller;
      stopped := true;
    }

    /** executeCopyTrade: broadcasts the run's messages and, when a submitted order failed with a
        balance error, trips the breaker. The engine flag is the one read at the start of the run. */
    method ExecuteCopyTrade(trade: TradeSignal, config: CopyTradeConfig, now: int,
                            market: Result<Market, string>, midpoint: Result<real, string>, response: OrderResponse)
      requires Valid() && trade.price > 0.0
      modifies this
      ensures Valid()
      ensures var trip := Trips(old(paused), old(hasClient), trade, config, now, market, midpoint, response);
        && broadcasts == old(broadcasts) +
             AsBroadcasts(Events(old(paused), old(hasClient), trade, config, now, market, midpoint, response)) +
             (if trip then [EngineOut(PAUSED)] else [])
        && paused == (old(paused) || trip)
        && poller == (if trip then Recovery60s else old(poller))
      ensures lastBalance == old(lastBalance) && stopped == old(stopped)
      ensures hasClient == old(hasClient) && walletAddress == old(walletAddress) && signatureType == old(signatureType)
    {
      var ev := Events(paused, hasClient, trade, config, now, market, midpoint, response);
      var trip := Trips(paused, hasClient, trade, config, now, market, midpoint, response);
      broadcasts := broadcasts + AsBroadcasts(ev);
      if trip {
        ActivateCircuitBreaker();
      }
    }

    /** handleMessage: a dropped message changes nothing; an accepted one runs the pipeline on the
        validated trade and the clamped config. */
    method HandleMessage(msg: Option<RawMessage>, now: int,
                         market: Result<Market, string>, midpoint: Result<real, string>, response: OrderResponse)
      requires Valid()
      modifies this
      ensures Valid()
      ensures SanitiseMessage(msg).None? ==> unchanged(this)
      ensures SanitiseMessage(msg).Some? ==>
        var (trade, config) := SanitiseMessage(msg).value;
        && 0.01 <= config.multiplier <= 10.0
        && broadcasts == old(broadcasts) +
             AsBroadcasts(Events(old(paused), old(hasClient), trade, config, now, market, midpoint, response)) +
             (if Trips(old(paused), old(hasClient), trade, config, now, market, midpoint, response) then [EngineOut(PAUSED)] else [])
        && paused == (old(paused) || Trips(old(paused), old(hasClient), trade, config, now, market, midpoint, response))
        && poller == (if Trips(old(paused), old(hasClient), trade, config, now, market, midpoint, response) then Recovery60s else old(poller))
      ensures lastBalance == old(lastBalance) && stopped == old(stopped)
      ensures hasClient == old(hasClient) && walletAddress == old(walletAddress) && signatureType == old(signatureType)
    {
      var s := SanitiseMessage(msg);
      if s.None? {
        return;
      }
      var (trade, config) := s.value;
      ExecuteCopyTrade(trade, config, now, market, midpoint, response);
    }

    /** What a newly connected client receives: None when the connection is refused, otherwise the
        engine state, followed by the last balance once one is known. */
    function Handshake(expected: Option<string>, token: Option<string>, now: int): (r: Option<seq<OutgoingMessage>>)
      reads this
      ensures r.None? <==> !TokenAccepted(expected, token)
      ensures r.Some? ==> |r.value| >= 1 && r.value[0] == EngineOut(EngineStateOf(paused))
      ensures r.Some? ==> (|r.value| == 2 <==> lastBalance >= 0.0)
      ensures r.Some? && lastBalance >= 0.0 ==> r.value[1] == BalanceOut(lastBalance, now)
    {
      if !TokenAccepted(expected, token) then None
      else Some([EngineOut(EngineStateOf(paused))] + (if lastBalance >= 0.0 then [BalanceOut(lastBalance, now)] else []))
    }
  }

  /** An example run of the documented life cycle, not an operation of the server: a start-up balance
      of 1.5 pauses the engine and starts the recovery poll; the regular poll is then not started; a
      recovery read of 2.5 resumes the engine on the regular poll, which then never pauses it. */
  method StartUpTripAndRecovery() returns (s: CopyTradeServer)
    ensures fresh(s) && s.Valid()
    ensures !s.paused && s.poller == Normal30s && s.lastBalance == 0.5
    ensures s.broadcasts == [EngineOut(PAUSED), BalanceOut(1.0, 120), BalanceOut(2.5, 180), EngineOut(ACTIVE), BalanceOut(0.5, 210)]
  {
    s := new CopyTradeServer();
    s.InitClobClient("key", "", None, Ok("0xabc"), Ok(()), Ok(1.5));
    assert s.paused && s.poller == Recovery60s && s.hasClient && s.walletAddress == "0xabc";
    s.StartPolling();
    assert s.poller == Recovery60s;
    s.RecoveryTick(Err("timeout"), 60);
    assert s.paused;
    s.RecoveryTick(Ok(1.0), 120);
    assert s.paused && s.lastBalance == 1.0;
    s.RecoveryTick(Ok(2.5), 180);
    assert !s.paused && s.poller == Normal30s && s.lastBalance == 2.5;
    s.RegularPollTick(Ok(0.5), 210);
    assert !s.paused && s.lastBalance == 0.5;
  }
}
