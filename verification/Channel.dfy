/** The counter nonces of the two ends. */
module Nonces {
  import opened Options
  import opened Bits

  const WRAP: nat := 0x1_0000_0000

  function Pow256(n: nat): (p: nat)
    ensures p > 0
  {
    if n == 0 then 1 else 256 * Pow256(n - 1)
  }

  /** The low `n` bytes of a number, most significant first. */
  function BigEndian(v: nat, n: nat): (b: seq<Byte>)
    ensures |b| == n
  {
    if n == 0 then [] else BigEndian(v / 256, n - 1) + [v % 256]
  }

  function Zeroes(n: nat): (b: seq<Byte>)
    ensures |b| == n
  {
    if n == 0 then [] else Zeroes(n - 1) + [0]
  }

  /** The twelve bytes of a counter, most significant first; `None` if it does not fit. */
  function ServerNonce(v: nat): Option<seq<Byte>> {
    if v < Pow256(12) then Some(BigEndian(v, 12)) else None
  }

  /** Eight zero bytes and the low 32 bits of the counter, most significant byte first. */
  function ClientNonce(v: nat): (n: seq<Byte>)
    ensures |n| == 12
  {
    Zeroes(8) + BigEndian(v % WRAP, 4)
  }

  /** The number that bytes write, most significant first. */
  function Value(b: seq<Byte>): nat {
    if b == [] then 0 else 256 * Value(b[..|b| - 1]) + b[|b| - 1]
  }

  lemma {:induction false} BigEndianIsValue(v: nat, n: nat, b: seq<Byte>)
    requires |b| == n
    ensures v < Pow256(n) && BigEndian(v, n) == b <==> v == Value(b)
    decreases n
  {
    if n > 0 {
      var init, last := b[..n - 1], b[n - 1];
      assert b == init + [last];
      BigEndianIsValue(v / 256, n - 1, init);
      var d := BigEndian(v, n);
      assert d[..n - 1] == BigEndian(v / 256, n - 1) && d[n - 1] == v % 256;
    }
  }

  /** The server's nonce is the twelve bytes that write the counter; there is none for a counter of 2^96 or more. */
  lemma {:induction false} ServerNonceIsNumber(v: nat, b: seq<Byte>)
    ensures ServerNonce(v) == Some(b) <==> |b| == 12 && Value(b) == v
    ensures ServerNonce(v).Some? <==> v < 0x1_0000_0000_0000_0000_0000_0000
  {
    if |b| == 12 {
      BigEndianIsValue(v, 12, b);
    }
    Pow256Twelve();
  }

  lemma {:induction false} Pow256Twelve()
    ensures Pow256(12) == 0x1_0000_0000_0000_0000_0000_0000
  {
    assert Pow256(4) == 256 * Pow256(3) && Pow256(3) == 256 * Pow256(2) && Pow256(2) == 256 * Pow256(1) && Pow256(1) == 256;
    assert Pow256(8) == 256 * Pow256(7) && Pow256(7) == 256 * Pow256(6) && Pow256(6) == 256 * Pow256(5) && Pow256(5) == 256 * Pow256(4);
    assert Pow256(12) == 256 * Pow256(11) && Pow256(11) == 256 * Pow256(10) && Pow256(10) == 256 * Pow256(9) && Pow256(9) == 256 * Pow256(8);
  }

  /** The client's nonce is eight zero bytes and the last four bytes of the counter. */
  lemma {:induction false} ClientNonceIsBytes(v: nat)
    ensures var u := v % 0x1_0000_0000;
      ClientNonce(v) == [0, 0, 0, 0, 0, 0, 0, 0] + [u / 0x100_0000 % 256, u / 0x1_0000 % 256, u / 0x100 % 256, u % 256]
  {
    hide BigEndian, Zeroes;
    EightZeroes();
    FourBytes(v % WRAP);
  }

  lemma {:induction false} EightZeroes()
    ensures Zeroes(8) == [0, 0, 0, 0, 0, 0, 0, 0]
  {
    assert Zeroes(4) == [0, 0, 0, 0];
  }

  lemma {:induction false} FourBytes(u: nat)
    ensures BigEndian(u, 4) == [u / 0x100_0000 % 256, u / 0x1_0000 % 256, u / 0x100 % 256, u % 256]
  {
    var v := u / 256;
    var w := v / 256;
    var x := w / 256;
    FourDigits(u, v, w, x);
    assert v == u / 0x100 && w == u / 0x1_0000 && x == u / 0x100_0000;
  }

  lemma {:induction false} FourDigits(u: nat, v: nat, w: nat, x: nat)
    requires v == u / 256 && w == v / 256 && x == w / 256
    ensures BigEndian(u, 4) == [x % 256, w % 256, v % 256, u % 256]
  {
    assert BigEndian(x, 1) == [x % 256];
    assert BigEndian(w, 2) == BigEndian(x, 1) + [w % 256];
    assert BigEndian(v, 3) == BigEndian(w, 2) + [v % 256];
    assert BigEndian(u, 4) == BigEndian(v, 3) + [u % 256];
  }

  lemma {:induction false} Pow256Four()
    ensures Pow256(4) == WRAP
  {
    assert Pow256(2) == 0x1_0000;
  }

  lemma {:induction false} Pow256Grows(m: nat, n: nat)
    requires m <= n
    ensures Pow256(m) <= Pow256(n)
  {
    if m < n {
      Pow256Grows(m, n - 1);
    }
  }

  lemma {:induction false} BigEndianInjective(a: nat, b: nat, n: nat)
    requires a < Pow256(n) && b < Pow256(n) && BigEndian(a, n) == BigEndian(b, n)
    ensures a == b
  {
    if n > 0 {
      var x, y := BigEndian(a, n), BigEndian(b, n);
      assert x[n - 1] == y[n - 1];
      assert x[..n - 1] == BigEndian(a / 256, n - 1) && y[..n - 1] == BigEndian(b / 256, n - 1);
      BigEndianInjective(a / 256, b / 256, n - 1);
    }
  }

  lemma {:induction false} BigEndianZero(n: nat)
    ensures BigEndian(0, n) == Zeroes(n)
  {
    if n > 0 {
      BigEndianZero(n - 1);
    }
  }

  lemma {:induction false} BigEndianPadded(v: nat, k: nat, n: nat)
    requires v < Pow256(n)
    ensures BigEndian(v, k + n) == Zeroes(k) + BigEndian(v, n)
    decreases n
  {
    if n == 0 {
      BigEndianZero(k);
    } else {
      BigEndianPadded(v / 256, k, n - 1);
    }
  }

  /** Client nonces repeat exactly with period 2^32. */
  lemma {:induction false} ClientNonceRepeats(a: nat, b: nat)
    ensures ClientNonce(a) == ClientNonce(b) <==> a % WRAP == b % WRAP
  {
    Pow256Four();
    if ClientNonce(a) == ClientNonce(b) {
      assert ClientNonce(a)[8..] == BigEndian(a % WRAP, 4) && ClientNonce(b)[8..] == BigEndian(b % WRAP, 4);
      BigEndianInjective(a % WRAP, b % WRAP, 4);
    }
  }

  /** Server nonces never repeat. */
  lemma {:induction false} ServerNonceUnique(a: nat, b: nat)
    requires ServerNonce(a).Some? && ServerNonce(a) == ServerNonce(b)
    ensures a == b
  {
    BigEndianInjective(a, b, 12);
  }

  lemma {:induction false} NoncesAgreeBelow(v: nat)
    requires v < WRAP
    ensures ServerNonce(v) == Some(ClientNonce(v))
  {
    hide Pow256, BigEndian, Zeroes;
    Pow256Four();
    Pow256Grows(4, 12);
    assert v % WRAP == v;
    BigEndianPadded(v, 8, 4);
  }

  lemma {:induction false} ClientNonceOfRemainder(v: nat)
    ensures ClientNonce(v % WRAP) == ClientNonce(v)
  {
    assert v % WRAP % WRAP == v % WRAP;
  }

  /** The two ends write the same nonce for a counter exactly below 2^32. */
  lemma {:induction false} NoncesAgree(v: nat)
    ensures ServerNonce(v) == Some(ClientNonce(v)) <==> v < WRAP
  {
    hide ServerNonce, ClientNonce;
    NoncesAgreeBelow(v % WRAP);
    ClientNonceOfRemainder(v);
    if ServerNonce(v) == Some(ClientNonce(v)) {
      ServerNonceUnique(v, v % WRAP);
    }
  }
}

/** The encrypted channel between a consumer and the authority. The cipher is ideal: only what was sealed
    under a key with a nonce opens under that key with that nonce. */
module Channel {
  import opened Options
  import opened Bits
  import opened Nonces

  datatype Payload = Payload(requestId: string, isError: bool, body: string)

  /** The directional keys of a session. */
  datatype Key = ClientToServer | ServerToClient

  datatype Body = Sealed(key: Key, nonce: seq<Byte>, plaintext: Payload) | Forged(bytes: seq<Byte>)

  datatype Envelope = Envelope(nonce: seq<Byte>, body: Body)

  function Open(key: Key, nonce: seq<Byte>, body: Body): Option<Payload> {
    if body.Sealed? && body.key == key && body.nonce == nonce then Some(body.plaintext) else None
  }

  /** The two counters of an end. */
  datatype End = End(sendNonce: nat, recvNonce: nat)

  // ----- The steps as functions of the counters -----

  function ServerEncrypt(s: End, p: Payload): (End, Option<Envelope>) {
    var n := ServerNonce(s.sendNonce);
    if n.None? then (s, None)
    else (s.(sendNonce := s.sendNonce + 1), Some(Envelope(n.value, Sealed(ServerToClient, n.value, p))))
  }

  /** The counter moves before the tag is checked, but only past a matching nonce. */
  function ServerDecrypt(s: End, e: Envelope): (End, Option<Payload>) {
    if Some(e.nonce) != ServerNonce(s.recvNonce) then (s, None)
    else (s.(recvNonce := s.recvNonce + 1), Open(ClientToServer, e.nonce, e.body))
  }

  function ClientEncrypt(c: End, p: Payload): (End, Envelope) {
    var n := ClientNonce(c.sendNonce);
    (c.(sendNonce := c.sendNonce + 1), Envelope(n, Sealed(ClientToServer, n, p)))
  }

  /** The counter moves with every envelope, and a nonce passes when it is a prefix of the expected one. */
  function ClientDecrypt(c: End, e: Envelope): (End, Option<Payload>) {
    var next := c.(recvNonce := c.recvNonce + 1);
    if !(e.nonce <= ClientNonce(c.recvNonce)) then (next, None) else (next, Open(ServerToClient, e.nonce, e.body))
  }

  class SecureServerSession {
    var sendNonce: nat
    var recvNonce: nat

    function State(): End
      reads this
    {
      End(sendNonce, recvNonce)
    }

    constructor ()
      ensures State() == End(0, 0)
    {
      sendNonce, recvNonce := 0, 0;
    }

    method Encrypt(payload: Payload) returns (envelope: Option<Envelope>)
      modifies this
      ensures (State(), envelope) == ServerEncrypt(old(State()), payload)
    {
      var nonce := ServerNonce(sendNonce);
      if nonce.None? {
        return None;
      }
      sendNonce := sendNonce + 1;
      envelope := Some(Envelope(nonce.value, Sealed(ServerToClient, nonce.value, payload)));
    }

    method Decrypt(envelope: Envelope) returns (payload: Option<Payload>)
      modifies this
      ensures (State(), payload) == ServerDecrypt(old(State()), envelope)
    {
      var expected := ServerNonce(recvNonce);
      if expected != Some(envelope.nonce) {
        return None;
      }
      recvNonce := recvNonce + 1;
      payload := Open(ClientToServer, envelope.nonce, envelope.body);
    }
  }

  /** What became of an incoming message. */
  datatype Handled = Settled(requestId: string, response: Payload) | Event(event: Payload) | Broken(failed: set<string>)

  class NobleRelayTransport {
    var sendNonce: nat
    var recvNonce: nat
    /** The requests that wait for a response. */
    var pending: set<string>
    var closed: bool

    function State(): End
      reads this
    {
      End(sendNonce, recvNonce)
    }

    constructor ()
      ensures State() == End(0, 0) && pending == {} && !closed
    {
      sendNonce, recvNonce, pending, closed := 0, 0, {}, false;
    }

    method Encrypt(payload: Payload) returns (envelope: Envelope)
      modifies this`sendNonce
      ensures (State(), envelope) == ClientEncrypt(old(State()), payload)
    {
      var n := ClientNonce(sendNonce);
      sendNonce := sendNonce + 1;
      envelope := Envelope(n, Sealed(ClientToServer, n, payload));
    }

    method Decrypt(envelope: Envelope) returns (payload: Option<Payload>)
      modifies this`recvNonce
      ensures (State(), payload) == ClientDecrypt(old(State()), envelope)
    {
      hide ClientNonce;
      var n := envelope.nonce;
      var expected := ClientNonce(recvNonce);
      recvNonce := recvNonce + 1;
      var i := 0;
      while i < |n|
        invariant 0 <= i <= |n| && i <= |expected|
        invariant n[..i] == expected[..i]
      {
        if i >= |expected| || n[i] != expected[i] {
          assert !(n <= expected);
          return None;
        }
        i := i + 1;
      }
      payload := Open(ServerToClient, n, envelope.body);
    }

    method Request(message: Payload) returns (envelope: Envelope)
      modifies this
      ensures (State(), envelope) == ClientEncrypt(old(State()), message)
      ensures pending == old(pending) + {message.requestId} && closed == old(closed)
    {
      envelope := Encrypt(message);
      pending := pending + {message.requestId};
    }

    /** A response settles the one request that waits under its id and no other; a message that does not open
        fails every waiting request and closes the transport. */
    method HandleMessage(envelope: Envelope) returns (outcome: Handled)
      modifies this
      ensures State() == ClientDecrypt(old(State()), envelope).0
      ensures var p := ClientDecrypt(old(State()), envelope).1;
        match p
        case None => outcome == Broken(old(pending)) && pending == {} && closed
        case Some(m) =>
          closed == old(closed)
          && (if m.requestId in old(pending)
              then outcome == Settled(m.requestId, m) && pending == old(pending) - {m.requestId}
              else outcome == Event(m) && pending == old(pending))
    {
      var payload := Decrypt(envelope);
      match payload {
        case None =>
          outcome := Broken(pending);
          pending, closed := {}, true;
        case Some(m) =>
          if m.requestId in pending {
            pending := pending - {m.requestId};
            outcome := Settled(m.requestId, m);
          } else {
            outcome := Event(m);
          }
      }
    }
  }

  // ----- Runs over a hostile relay -----

  /** Both ends, all they ever encrypted, and all they ever accepted. */
  datatype World = World(
    client: End, server: End,
    clientOut: seq<Envelope>, serverOut: seq<Envelope>,
    clientSent: seq<Payload>, serverSent: seq<Payload>,
    atServer: seq<Payload>, atClient: seq<Payload>)

  const START := World(End(0, 0), End(0, 0), [], [], [], [], [], [])

  datatype Act = ClientSends(p: Payload) | ServerSends(p: Payload) | ToServer(e: Envelope) | ToClient(e: Envelope)

  function Accept(log: seq<Payload>, p: Option<Payload>): seq<Payload> {
    if p.None? then log else log + [p.value]
  }

  function Step(w: World, a: Act): World {
    match a
    case ClientSends(p) =>
      var (c, e) := ClientEncrypt(w.client, p);
      w.(client := c, clientOut := w.clientOut + [e], clientSent := w.clientSent + [p])
    case ServerSends(p) =>
      var (s, e) := ServerEncrypt(w.server, p);
      if e.None? then w else w.(server := s, serverOut := w.serverOut + [e.value], serverSent := w.serverSent + [p])
    case ToServer(e) =>
      var (s, p) := ServerDecrypt(w.server, e);
      w.(server := s, atServer := Accept(w.atServer, p))
    case ToClient(e) =>
      var (c, p) := ClientDecrypt(w.client, e);
      w.(client := c, atClient := Accept(w.atClient, p))
  }

  /** The relay can deliver any body it has seen, to either end, under any nonce, or bytes of its own making. */
  predicate RelayCanMake(w: World, e: Envelope) {
    e.body.Forged?
    || (exists i :: 0 <= i < |w.clientOut| && w.clientOut[i].body == e.body)
    || (exists i :: 0 <= i < |w.serverOut| && w.serverOut[i].body == e.body)
  }

  predicate Possible(w: World, a: Act) {
    match a
    case ToServer(e) => RelayCanMake(w, e)
    case ToClient(e) => RelayCanMake(w, e)
    case _ => true
  }

  function Run(acts: seq<Act>): World
    decreases |acts|
  {
    if acts == [] then START else Step(Run(acts[..|acts| - 1]), acts[|acts| - 1])
  }

  predicate PossibleRun(acts: seq<Act>)
    decreases |acts|
  {
    acts == [] || (PossibleRun(acts[..|acts| - 1]) && Possible(Run(acts[..|acts| - 1]), acts[|acts| - 1]))
  }

  /** Neither end has encrypted more than 2^32 messages, and the client has been handed at most 2^32 envelopes. */
  predicate WithinNonceSpace(w: World) {
    |w.clientSent| <= WRAP && |w.serverSent| <= WRAP && w.client.recvNonce <= WRAP
  }

  /** `picked` are the members of `all` at the strictly increasing places `at`. */
  predicate Picks(at: seq<nat>, picked: seq<Payload>, all: seq<Payload>) {
    && |at| == |picked|
    && (forall i, j :: 0 <= i < j < |at| ==> at[i] < at[j])
    && (forall i :: 0 <= i < |at| ==> at[i] < |all| && picked[i] == all[at[i]])
  }

  ghost predicate InOrderWithoutRepeats(picked: seq<Payload>, all: seq<Payload>) {
    exists at :: Picks(at, picked, all)
  }

  // ----- The invariant -----

  /** What was sent so far is sealed under counters 0, 1, 2, ... */
  predicate Logged(w: World) {
    && w.client.sendNonce == |w.clientSent| == |w.clientOut|
    && w.server.sendNonce == |w.serverSent| == |w.serverOut| <= Pow256(12)
    && (forall i :: 0 <= i < |w.clientOut| ==>
         w.clientOut[i] == Envelope(ClientNonce(i), Sealed(ClientToServer, ClientNonce(i), w.clientSent[i])))
    && (forall i :: 0 <= i < |w.serverOut| ==>
         (ServerNonce(i).Some?
          && w.serverOut[i] == Envelope(ServerNonce(i).value, Sealed(ServerToClient, ServerNonce(i).value, w.serverSent[i]))))
  }

  /** What an end accepted was sent under counters below its own. */
  ghost predicate AcceptedBelow(picked: seq<Payload>, all: seq<Payload>, bound: nat) {
    exists at :: Picks(at, picked, all) && (forall i :: 0 <= i < |at| ==> at[i] < bound)
  }

  ghost predicate Inv(w: World) {
    && Logged(w)
    && AcceptedBelow(w.atServer, w.clientSent, w.server.recvNonce)
    && AcceptedBelow(w.atClient, w.serverSent, w.client.recvNonce)
  }

  lemma {:induction false} LoggedKept(w: World, a: Act)
    requires Logged(w)
    ensures Logged(Step(w, a))
  {
    hide ClientNonce, BigEndian, Pow256;
  }

  lemma {:induction false} MoreSent(picked: seq<Payload>, all: seq<Payload>, bound: nat, p: Payload)
    requires AcceptedBelow(picked, all, bound)
    ensures AcceptedBelow(picked, all + [p], bound)
  {
    var at :| Picks(at, picked, all) && (forall i :: 0 <= i < |at| ==> at[i] < bound);
    assert Picks(at, picked, all + [p]);
  }

  lemma {:induction false} OneMoreAccepted(picked: seq<Payload>, all: seq<Payload>, bound: nat, p: Option<Payload>)
    requires AcceptedBelow(picked, all, bound)
    requires p.Some? ==> bound < |all| && p.value == all[bound]
    ensures AcceptedBelow(Accept(picked, p), all, bound + 1)
  {
    var at :| Picks(at, picked, all) && (forall i :: 0 <= i < |at| ==> at[i] < bound);
    if p.Some? {
      PickOneMore(at, picked, all, bound);
    }
  }

  lemma {:induction false} PickOneMore(at: seq<nat>, picked: seq<Payload>, all: seq<Payload>, bound: nat)
    requires Picks(at, picked, all) && (forall i :: 0 <= i < |at| ==> at[i] < bound) && bound < |all|
    ensures Picks(at + [bound], picked + [all[bound]], all) && forall i :: 0 <= i < |at + [bound]| ==> (at + [bound])[i] < bound + 1
  {
  }

  /** Whatever opens at the server under its counter is the client's message with that number. */
  lemma {:induction false} ServerOpensOwnNumber(w: World, e: Envelope)
    requires Logged(w) && RelayCanMake(w, e) && |w.clientSent| <= WRAP
    requires ServerDecrypt(w.server, e).1.Some?
    ensures var k := w.server.recvNonce; k < |w.clientSent| && ServerDecrypt(w.server, e).1 == Some(w.clientSent[k])
  {
    hide BigEndian, Pow256, ClientNonce, ServerNonce;
    var i :| 0 <= i < |w.clientOut| && w.clientOut[i].body == e.body;
    NoncesAgree(i);
    ServerNonceUnique(i, w.server.recvNonce);
  }

  lemma {:induction false} ClientOpensOwnNumber(w: World, e: Envelope)
    requires Logged(w) && RelayCanMake(w, e) && |w.serverSent| <= WRAP && w.client.recvNonce < WRAP
    requires ClientDecrypt(w.client, e).1.Some?
    ensures var k := w.client.recvNonce; k < |w.serverSent| && ClientDecrypt(w.client, e).1 == Some(w.serverSent[k])
  {
    hide BigEndian, Pow256, ClientNonce, ServerNonce;
    var i :| 0 <= i < |w.serverOut| && w.serverOut[i].body == e.body;
    var k := w.client.recvNonce;
    NoncesAgree(i);
    assert |e.nonce| == |ClientNonce(i)| == |ClientNonce(k)|;
    assert e.nonce == ClientNonce(k);
    ClientNonceRepeats(i, k);
  }

  lemma {:induction false} InvKept(w: World, a: Act)
    requires Inv(w) && Possible(w, a) && WithinNonceSpace(Step(w, a))
    ensures Inv(Step(w, a))
  {
    hide BigEndian, Pow256, ClientNonce, ServerNonce, AcceptedBelow, Logged, RelayCanMake;
    LoggedKept(w, a);
    match a
    case ClientSends(p) => MoreSent(w.atServer, w.clientSent, w.server.recvNonce, p);
    case ServerSends(p) => MoreSent(w.atClient, w.serverSent, w.client.recvNonce, p);
    case ToServer(e) =>
      var p := ServerDecrypt(w.server, e).1;
      if p.Some? {
        ServerOpensOwnNumber(w, e);
      }
      OneMoreAccepted(w.atServer, w.clientSent, w.server.recvNonce, p);
    case ToClient(e) =>
      var p := ClientDecrypt(w.client, e).1;
      if p.Some? {
        ClientOpensOwnNumber(w, e);
      }
      OneMoreAccepted(w.atClient, w.serverSent, w.client.recvNonce, p);
  }

  lemma {:induction false} SpaceShrinksBack(w: World, a: Act)
    requires WithinNonceSpace(Step(w, a))
    ensures WithinNonceSpace(w)
  {
  }

  lemma {:induction false} InvHolds(acts: seq<Act>)
    requires PossibleRun(acts) && WithinNonceSpace(Run(acts))
    ensures Inv(Run(acts))
    decreases |acts|
  {
    hide Step, Possible;
    if acts == [] {
      assert Picks([], [], []);
    } else {
      var before, a := acts[..|acts| - 1], acts[|acts| - 1];
      SpaceShrinksBack(Run(before), a);
      InvHolds(before);
      InvKept(Run(before), a);
    }
  }

  /** However the relay drops, repeats, reorders or forges, each end accepts messages of the other end only,
      in order and none of them twice. */
  lemma {:induction false} OrderedChannel(acts: seq<Act>)
    requires PossibleRun(acts) && WithinNonceSpace(Run(acts))
    ensures InOrderWithoutRepeats(Run(acts).atServer, Run(acts).clientSent)
    ensures InOrderWithoutRepeats(Run(acts).atClient, Run(acts).serverSent)
  {
    InvHolds(acts);
  }

  // ----- Past the nonce space -----

  lemma {:induction false} LoggedAlways(acts: seq<Act>)
    ensures Logged(Run(acts))
    decreases |acts|
  {
    hide Step, Logged;
    if acts == [] {
      LoggedStart();
    } else {
      LoggedAlways(acts[..|acts| - 1]);
      LoggedKept(Run(acts[..|acts| - 1]), acts[|acts| - 1]);
    }
  }

  /** In every run, two envelopes of the client have the same nonce exactly if their numbers agree modulo 2^32, and no two
      of the server do. */
  lemma {:induction false} NoncesRepeatExactly(acts: seq<Act>)
    ensures forall i, j :: 0 <= i < j < |Run(acts).clientOut| ==>
      (Run(acts).clientOut[i].nonce == Run(acts).clientOut[j].nonce <==> i % WRAP == j % WRAP)
    ensures forall i, j :: 0 <= i < j < |Run(acts).serverOut| ==> Run(acts).serverOut[i].nonce != Run(acts).serverOut[j].nonce
  {
    hide BigEndian, Pow256, ClientNonce, ServerNonce, Run;
    LoggedAlways(acts);
    var w := Run(acts);
    forall i, j | 0 <= i < j < |w.clientOut|
      ensures w.clientOut[i].nonce == w.clientOut[j].nonce <==> i % WRAP == j % WRAP
    {
      ClientNonceRepeats(i, j);
    }
    forall i, j | 0 <= i < j < |w.serverOut|
      ensures w.serverOut[i].nonce != w.serverOut[j].nonce
    {
      if w.serverOut[i].nonce == w.serverOut[j].nonce {
        ServerNonceUnique(i, j);
      }
    }
  }

  lemma {:induction false} NonceMatches(i: nat, counter: nat)
    requires ServerNonce(i).Some?
    ensures ServerNonce(i).value <= ClientNonce(counter) <==> i == counter % WRAP
  {
    hide BigEndian, Pow256, ClientNonce, ServerNonce;
    ClientNonceOfRemainder(counter);
    NoncesAgree(counter % WRAP);
    ServerNonceLength(i);
    if ServerNonce(i).value <= ClientNonce(counter) {
      assert ServerNonce(i).value == ClientNonce(counter);
      ServerNonceUnique(i, counter % WRAP);
    }
  }

  lemma {:induction false} ServerNonceLength(v: nat)
    ensures ServerNonce(v).Some? ==> |ServerNonce(v).value| == 12
  {
  }

  /** In every run, the client opens the server's envelope `i` exactly if its counter is `i` modulo 2^32. */
  lemma {:induction false} ClientOpensExactly(acts: seq<Act>, i: nat)
    requires i < |Run(acts).serverOut|
    ensures var w := Run(acts);
      i < |w.serverSent| && ClientDecrypt(w.client, w.serverOut[i]).1 == if i == w.client.recvNonce % WRAP then Some(w.serverSent[i]) else None
  {
    hide BigEndian, Pow256, ClientNonce, ServerNonce, Run;
    LoggedAlways(acts);
    NonceMatches(i, Run(acts).client.recvNonce);
  }

  /** ... and the server the client's envelope `i` exactly if its counter, which never wraps, is `i` modulo 2^32. */
  lemma {:induction false} ServerOpensExactly(acts: seq<Act>, i: nat)
    requires i < |Run(acts).clientOut|
    ensures var w := Run(acts);
      i < |w.clientSent| && ServerDecrypt(w.server, w.clientOut[i]).1 == if w.server.recvNonce == i % WRAP then Some(w.clientSent[i]) else None
  {
    hide BigEndian, Pow256, ClientNonce, ServerNonce, Run;
    LoggedAlways(acts);
    ClientNonceOfRemainder(i);
    NoncesAgree(i % WRAP);
    if ServerNonce(Run(acts).server.recvNonce) == Some(ClientNonce(i)) {
      ServerNonceUnique(Run(acts).server.recvNonce, i % WRAP);
    }
  }

  // ----- The counters -----

  /** How many envelopes were handed to the client. */
  function Handed(acts: seq<Act>): nat
    decreases |acts|
  {
    if acts == [] then 0 else Handed(acts[..|acts| - 1]) + (if acts[|acts| - 1].ToClient? then 1 else 0)
  }

  /** How many envelopes handed to the server bore the next number. */
  function Matched(acts: seq<Act>): nat
    decreases |acts|
  {
    if acts == [] then 0
    else
      var m, a := Matched(acts[..|acts| - 1]), acts[|acts| - 1];
      if a.ToServer? && |a.e.nonce| == 12 && Value(a.e.nonce) == m then m + 1 else m
  }

  /** In every run, the client's counter moves with every envelope and the server's with those of the next number, whether or not
      they open. */
  lemma {:induction false} CountersMoveExactly(acts: seq<Act>)
    ensures Run(acts).client.recvNonce == Handed(acts) && Run(acts).server.recvNonce == Matched(acts)
    decreases |acts|
  {
    hide ServerNonce, ClientNonce, Value;
    if acts != [] {
      var a := acts[|acts| - 1];
      CountersMoveExactly(acts[..|acts| - 1]);
      if a.ToServer? {
        ServerNonceIsNumber(Run(acts[..|acts| - 1]).server.recvNonce, a.e.nonce);
      }
    }
  }

  /** An envelope opens exactly if its nonce passes, the other end's key seals it and it was sealed under the same nonce: at the
      server the nonce has to write the next number, at the client it has to begin the expected bytes. */
  lemma {:induction false} OpensExactly(acts: seq<Act>, e: Envelope, p: Payload)
    ensures ServerDecrypt(Run(acts).server, e).1 == Some(p)
      <==> |e.nonce| == 12 && Value(e.nonce) == Matched(acts) && e.body == Sealed(ClientToServer, e.nonce, p)
    ensures ClientDecrypt(Run(acts).client, e).1 == Some(p)
      <==> e.nonce <= ClientNonce(Handed(acts)) && e.body == Sealed(ServerToClient, e.nonce, p)
  {
    hide ServerNonce, ClientNonce, Value, Run;
    CountersMoveExactly(acts);
    ServerNonceIsNumber(Run(acts).server.recvNonce, e.nonce);
  }

  // ----- A faithful relay -----

  /** The relay hands over each envelope once, in the order it was sent. */
  predicate Fifo(w: World, a: Act) {
    match a
    case ToServer(e) => w.server.recvNonce < |w.clientOut| && e == w.clientOut[w.server.recvNonce]
    case ToClient(e) => w.client.recvNonce < |w.serverOut| && e == w.serverOut[w.client.recvNonce]
    case _ => true
  }

  predicate FifoRun(acts: seq<Act>)
    decreases |acts|
  {
    acts == [] || (FifoRun(acts[..|acts| - 1]) && Fifo(Run(acts[..|acts| - 1]), acts[|acts| - 1]))
  }

  /** With a faithful relay nothing is refused: each end has accepted exactly the messages delivered so far. */
  lemma {:induction false} FaithfulRelay(acts: seq<Act>)
    requires FifoRun(acts) && WithinNonceSpace(Run(acts))
    ensures Logged(Run(acts)) && Prefixes(Run(acts))
    decreases |acts|
  {
    hide Step, Logged, Prefixes, Fifo;
    if acts == [] {
      LoggedStart();
    } else {
      var before, a := acts[..|acts| - 1], acts[|acts| - 1];
      SpaceShrinksBack(Run(before), a);
      FaithfulRelay(before);
      LoggedKept(Run(before), a);
      PrefixesKept(Run(before), a);
    }
  }

  /** Each end has accepted exactly the messages that were handed over to it, none missing and none refused. */
  predicate Prefixes(w: World) {
    && w.server.recvNonce <= |w.clientSent| && w.atServer == w.clientSent[..w.server.recvNonce]
    && w.client.recvNonce <= |w.serverSent| && w.atClient == w.serverSent[..w.client.recvNonce]
  }

  lemma {:induction false} PrefixesKept(w: World, a: Act)
    requires Logged(w) && Prefixes(w) && Fifo(w, a) && WithinNonceSpace(w)
    ensures Prefixes(Step(w, a))
  {
    hide BigEndian, Pow256, ClientNonce, ServerNonce, ServerDecrypt, ClientDecrypt;
    FifoOpens(w, a);
    match a
    case ClientSends(p) => assert (w.clientSent + [p])[..w.server.recvNonce] == w.clientSent[..w.server.recvNonce];
    case ServerSends(p) => assert (w.serverSent + [p])[..w.client.recvNonce] == w.serverSent[..w.client.recvNonce];
    case ToServer(e) =>
      assert w.clientSent[..w.server.recvNonce + 1] == w.clientSent[..w.server.recvNonce] + [w.clientSent[w.server.recvNonce]];
    case ToClient(e) =>
      assert w.serverSent[..w.client.recvNonce + 1] == w.serverSent[..w.client.recvNonce] + [w.serverSent[w.client.recvNonce]];
  }

  lemma {:induction false} LoggedStart()
    ensures Logged(START) && Prefixes(START)
  {
  }

  lemma {:induction false} FifoOpens(w: World, a: Act)
    requires Logged(w) && Fifo(w, a) && WithinNonceSpace(w)
    ensures a.ToServer? ==>
      ServerDecrypt(w.server, a.e) == (w.server.(recvNonce := w.server.recvNonce + 1), Some(w.clientSent[w.server.recvNonce]))
    ensures a.ToClient? ==>
      ClientDecrypt(w.client, a.e) == (w.client.(recvNonce := w.client.recvNonce + 1), Some(w.serverSent[w.client.recvNonce]))
  {
    hide BigEndian, Pow256, ClientNonce, ServerNonce;
    match a
    case ToServer(e) => NoncesAgree(w.server.recvNonce);
    case ToClient(e) => NoncesAgree(w.client.recvNonce);
    case _ =>
  }

  // ----- A replay -----

  /** The server's envelope `n`, for `n` below 2^32, if it seals the payload. */
  function Numbered(p: Payload, n: nat): Envelope {
    Envelope(ClientNonce(n), Sealed(ServerToClient, ClientNonce(n), p))
  }

  /** The server sends a payload `n` times, and the relay hands over each envelope at once. */
  function Exchange(p: Payload, n: nat): seq<Act> {
    if n == 0 then [] else (Exchange(p, n - 1) + [ServerSends(p)]) + [ToClient(Numbered(p, n - 1))]
  }

  lemma {:induction false} OneMoreAct(acts: seq<Act>, a: Act)
    ensures Run(acts + [a]) == Step(Run(acts), a)
    ensures FifoRun(acts + [a]) <==> FifoRun(acts) && Fifo(Run(acts), a)
  {
    hide Step, Fifo;
    assert (acts + [a])[..|acts|] == acts;
  }

  /** After `n` such rounds. */
  predicate Exchanged(w: World, p: Payload, n: nat) {
    && w.client.recvNonce == w.server.sendNonce == n && |w.serverOut| == |w.serverSent| == n && w.atClient == w.serverSent
    && (n > 0 ==> w.serverOut[0] == Numbered(p, 0) && w.serverSent[0] == p)
  }

  lemma {:induction false} OneMoreRound(w: World, p: Payload, n: nat)
    requires Exchanged(w, p, n) && n < WRAP
    ensures var sent := Step(w, ServerSends(p));
      Fifo(sent, ToClient(Numbered(p, n))) && Exchanged(Step(sent, ToClient(Numbered(p, n))), p, n + 1)
  {
    hide BigEndian, Pow256, ClientNonce, ServerNonce;
    NoncesAgree(n);
  }

  lemma {:induction false} RoundRuns(acts: seq<Act>, p: Payload, n: nat)
    requires FifoRun(acts) && Exchanged(Run(acts), p, n) && n < WRAP
    ensures var all := (acts + [ServerSends(p)]) + [ToClient(Numbered(p, n))]; FifoRun(all) && Exchanged(Run(all), p, n + 1)
  {
    hide Run, FifoRun, Step, Fifo, Exchanged, Numbered;
    OneMoreRound(Run(acts), p, n);
    SendsAreFifo(Run(acts), p);
    OneMoreAct(acts, ServerSends(p));
    OneMoreAct(acts + [ServerSends(p)], ToClient(Numbered(p, n)));
  }

  lemma {:induction false} ExchangeRuns(p: Payload, n: nat)
    requires n <= WRAP
    ensures FifoRun(Exchange(p, n)) && Exchanged(Run(Exchange(p, n)), p, n)
  {
    hide Run, FifoRun, Exchanged, Numbered;
    if n > 0 {
      ExchangeRuns(p, n - 1);
      RoundRuns(Exchange(p, n - 1), p, n - 1);
    } else {
      NothingExchanged(p);
    }
  }

  lemma {:induction false} SendsAreFifo(w: World, p: Payload)
    ensures Fifo(w, ServerSends(p))
  {
  }

  lemma {:induction false} NothingExchanged(p: Payload)
    ensures FifoRun([]) && Exchanged(Run([]), p, 0)
  {
  }

  /** After 2^32 messages, all handed over once and in order, the client accepts the first of them once more. */
  lemma {:induction false} ReplayAfterWrap(p: Payload)
    ensures var w := Run(Exchange(p, WRAP));
      && FifoRun(Exchange(p, WRAP)) && w.atClient == w.serverSent && |w.serverSent| == |w.serverOut| == WRAP
      && Run(Exchange(p, WRAP) + [ToClient(w.serverOut[0])]).atClient == w.serverSent + [p]
  {
    hide BigEndian, Pow256, ClientNonce, ServerNonce, Exchange, Run, FifoRun;
    ExchangeRuns(p, WRAP);
    OneMoreAct(Exchange(p, WRAP), ToClient(Run(Exchange(p, WRAP)).serverOut[0]));
    ClientOpensExactly(Exchange(p, WRAP), 0);
  }
}
