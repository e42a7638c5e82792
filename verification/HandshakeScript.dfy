/** The one sequence of messages that two configurations agree on, and where each state stands in it. */
module HandshakeScript {
  import opened Bytes
  import opened HandshakeState

  /** The places for messages in a full handshake, in order (section 7.3 of RFC 5246), and the end. A resumed
      handshake visits some of them in another order. */
  datatype Kind =
    | KClientHello | KServerHello | KServerCertificate | KCertificateStatus | KServerKeyExchange
    | KCertificateRequest | KServerHelloDone | KClientCertificate | KClientKeyExchange | KCertificateVerify
    | KClientCcs | KNextProto | KChannelId | KClientFinished | KNewSessionTicket | KServerCcs | KServerFinished
    | KEnd

  /** What the two configurations lead to. */
  datatype Facts = Facts(params: Params, certRequest: bool, hasCert: bool, keyExchangeSent: bool, emptyTicket: bool,
                         offersSession: bool, certDemanded: bool)

  function Agree(c: Config, s: Config): Facts
    requires c.Client? && s.Server?
  {
    var resumed := s.findsSession && c.offersSession;
    var channelId := s.channelIdOffered && s.kx == Ecdhe && !(resumed && !s.originalHashes);
    var ticket := if resumed then s.renewTicket else s.ticketsSupported;
    Facts(Params(resumed, s.kx, s.cert, ticket, s.ocspReady && !resumed && s.cert, s.npnOffered, channelId),
          !resumed && s.verifyPeer && !(s.verifyIfNoObc && s.channelIdOffered) && s.cert,
          c.hasCert, s.kx == Ecdhe || (!s.cert && s.pskHint), s.emptyTicket, c.offersSession, s.failIfNoCert)
  }

  /** The cipher suites there are: RSA key exchange needs a certificate, plain PSK has none. */
  predicate CipherOk(s: Config)
    requires s.Server?
  {
    (s.kx == Rsa ==> s.cert) && (s.kx == Psk ==> !s.cert)
  }

  /** The server gets the certificate it insists on. */
  predicate Compatible(f: Facts) {
    f.certRequest && f.certDemanded ==> f.hasCert
  }

  function At(resumed: bool, p: nat): Kind {
    if resumed then
      match p
      case 0 => KClientHello
      case 1 => KServerHello
      case 2 => KNewSessionTicket
      case 3 => KServerCcs
      case 4 => KServerFinished
      case 5 => KClientCcs
      case 6 => KNextProto
      case 7 => KChannelId
      case 8 => KClientFinished
      case _ => KEnd
    else
      match p
      case 0 => KClientHello
      case 1 => KServerHello
      case 2 => KServerCertificate
      case 3 => KCertificateStatus
      case 4 => KServerKeyExchange
      case 5 => KCertificateRequest
      case 6 => KServerHelloDone
      case 7 => KClientCertificate
      case 8 => KClientKeyExchange
      case 9 => KCertificateVerify
      case 10 => KClientCcs
      case 11 => KNextProto
      case 12 => KChannelId
      case 13 => KClientFinished
      case 14 => KNewSessionTicket
      case 15 => KServerCcs
      case 16 => KServerFinished
      case _ => KEnd
  }

  function End(f: Facts): nat {
    if f.params.resumed then 9 else 17
  }

  function KindAt(f: Facts, p: nat): Kind {
    At(f.params.resumed, p)
  }

  predicate Present(f: Facts, k: Kind) {
    match k
    case KServerCertificate => f.params.cert
    case KCertificateStatus => f.params.ocsp
    case KServerKeyExchange => f.keyExchangeSent
    case KCertificateRequest => f.certRequest
    case KClientCertificate => f.certRequest
    case KCertificateVerify => f.certRequest && f.hasCert
    case KNextProto => f.params.npn
    case KChannelId => f.params.channelId
    case KNewSessionTicket => f.params.ticket
    case KEnd => false
    case _ => true
  }

  predicate FromServer(k: Kind) {
    match k
    case KServerHello => true
    case KServerCertificate => true
    case KCertificateStatus => true
    case KServerKeyExchange => true
    case KCertificateRequest => true
    case KServerHelloDone => true
    case KNewSessionTicket => true
    case KServerCcs => true
    case KServerFinished => true
    case _ => false
  }

  /** Sealed under the new keys: what follows a ChangeCipherSpec from the same end. */
  predicate IsSealed(k: Kind) {
    k == KNextProto || k == KChannelId || k == KClientFinished || k == KServerFinished
  }

  predicate IsCcs(k: Kind) {
    k == KClientCcs || k == KServerCcs
  }

  /** The message at a place, after the messages t. */
  function MsgOf(f: Facts, k: Kind, t: seq<Msg>): Msg {
    match k
    case KClientHello => ClientHello(f.offersSession)
    case KServerHello => ServerHello(f.params)
    case KServerCertificate => Certificate(true)
    case KCertificateStatus => CertificateStatus
    case KServerKeyExchange => ServerKeyExchange
    case KCertificateRequest => CertificateRequest
    case KServerHelloDone => ServerHelloDone
    case KClientCertificate => Certificate(f.hasCert)
    case KClientKeyExchange => ClientKeyExchange
    case KCertificateVerify => CertificateVerify(t)
    case KNextProto => NextProto
    case KChannelId => ChannelId(t)
    case KClientFinished => Finished(false, t)
    case KNewSessionTicket => NewSessionTicket(f.emptyTicket)
    case KServerFinished => Finished(true, t)
    case _ => ServerHelloDone
  }

  function RecOf(f: Facts, k: Kind, t: seq<Msg>): Rec {
    if IsCcs(k) then ChangeCipherSpec(false) else Handshake(MsgOf(f, k, t), IsSealed(k))
  }

  /** The transcript and the Finished messages after the places before p. */
  function LogAt(f: Facts, p: nat): Log {
    if p == 0 then Log([], None, None) else LogNext(f, KindAt(f, p - 1), LogAt(f, p - 1))
  }

  function LogNext(f: Facts, k: Kind, log: Log): Log {
    if !Present(f, k) || IsCcs(k) then log
    else if k.KClientFinished? then log.Finish(false)
    else if k.KServerFinished? then log.Finish(true)
    else log.Add(MsgOf(f, k, log.transcript))
  }

  /** The records from place a up to place b. */
  function Recs(f: Facts, a: nat, b: nat): seq<Rec> {
    if b <= a then [] else Recs(f, a, b - 1) + RecsAt(f, b - 1)
  }

  function RecsAt(f: Facts, p: nat): seq<Rec> {
    if Present(f, KindAt(f, p)) then [RecOf(f, KindAt(f, p), LogAt(f, p).transcript)] else []
  }

  /** Every message from place a up to place b is sent by the given end. */
  ghost predicate Only(f: Facts, server: bool, a: nat, b: nat) {
    forall p: nat | a <= p < b && Present(f, KindAt(f, p)) :: FromServer(KindAt(f, p)) == server
  }

  lemma {:induction false} RecsJoin(f: Facts, a: nat, b: nat, c: nat)
    requires a <= b <= c
    ensures Recs(f, a, c) == Recs(f, a, b) + Recs(f, b, c)
    decreases c
  {
    if b < c {
      RecsJoin(f, a, b, c - 1);
    }
  }

  lemma {:induction false} NoneOfEither(f: Facts, server: bool, a: nat, b: nat)
    requires Only(f, server, a, b) && Only(f, !server, a, b)
    ensures Recs(f, a, b) == []
    decreases b
  {
    if a < b {
      NoneOfEither(f, server, a, b - 1);
    }
  }

  lemma {:induction false} RecsBound(f: Facts, a: nat, b: nat)
    requires a <= b
    ensures |Recs(f, a, b)| <= b - a
    decreases b
  {
    if a < b {
      RecsBound(f, a, b - 1);
    }
  }

  lemma RecsFirst(f: Facts, a: nat, b: nat)
    requires a < b
    ensures Recs(f, a, b) == RecsAt(f, a) + Recs(f, a + 1, b)
  {
    RecsJoin(f, a, a + 1, b);
    assert Recs(f, a, a) == [];
    assert Recs(f, a, a + 1) == RecsAt(f, a);
  }

  // Where a state stands. The states are numbered in the order of the source's two enumerations, so that what
  // there is to say of them can be said of ranges.

  function Number(s: State): nat {
    match s
    case StartConnect => 0
    case EnterEarlyData => 1
    case ReadServerHello => 2
    case ReadServerCertificate => 3
    case ReadCertificateStatus => 4
    case VerifyServerCertificate => 5
    case ReadServerKeyExchange => 6
    case ReadCertificateRequest => 7
    case ReadServerHelloDone => 8
    case SendClientCertificate => 9
    case SendClientKeyExchange => 10
    case SendClientCertificateVerify => 11
    case SendClientFinished => 12
    case FinishFlight => 13
    case ReadSessionTicket => 14
    case ProcessServerCcs => 15
    case ReadServerFinished => 16
    case FinishClientHandshake => 17
    case StartAccept => 18
    case ReadClientHello => 19
    case SelectCertificate => 20
    case SelectParameters => 21
    case SendServerHello => 22
    case SendServerCertificate => 23
    case SendServerKeyExchange => 24
    case SendServerHelloDone => 25
    case ReadClientCertificate => 26
    case VerifyClientCertificate => 27
    case ReadClientKeyExchange => 28
    case ReadClientCertificateVerify => 29
    case ReadClientCcs => 30
    case ProcessClientCcs => 31
    case ReadNextProto => 32
    case ReadChannelId => 33
    case ReadClientFinished => 34
    case SendServerFinished => 35
    case FinishServerHandshake => 36
    case Done => 37
  }

  /** The place of a state in a full handshake. */
  function FullPlace(n: nat): nat {
    if n <= 1 then n
    else if n <= 5 then n - 1
    else if n <= 12 then n - 2
    else if n <= 14 then 14
    else if n <= 17 then n
    else if n <= 21 then 0
    else if n <= 23 then n - 21
    else if n <= 25 then n - 20
    else if n <= 27 then n - 19
    else if n <= 30 then n - 20
    else if n <= 35 then n - 21
    else 17
  }

  /** The place of a state in a resumed handshake, if that visits it. */
  function ResumedPlace(n: nat): nat {
    if n == 0 || 18 <= n <= 21 then 0
    else if n <= 2 || n == 22 then 1
    else if n == 12 || n == 30 || n == 31 then 5
    else if 14 <= n <= 16 then n - 12
    else if 32 <= n <= 34 then n - 26
    else if n == 35 then 2
    else 9
  }

  /** The place of a state; a ChangeCipherSpec has been taken once it is no longer waited for. */
  function Pos(s: State, w: Wait, resumed: bool): nat {
    var n := Number(s);
    (if resumed then ResumedPlace(n) else FullPlace(n)) + (if (n == 15 || n == 31) && w != ReadCcs then 1 else 0)
  }

  /** The states that a resumed handshake leaves out. */
  predicate FullOnly(n: nat) {
    3 <= n <= 11 || 23 <= n <= 29
  }

  /** The states that a handshake of this sort goes through. */
  predicate Visits(n: nat, server: bool, resumed: bool) {
    (n == 37 || (18 <= n <= 36) == server) && !(resumed && FullOnly(n))
  }

  /** The states between the first message of a flight and its flush. */
  predicate MidFlight(n: nat) {
    10 <= n <= 12 || 23 <= n <= 25 || n == 35
  }

  /** The states that take the message of their place. */
  predicate Takes(n: nat) {
    2 <= n <= 4 || 6 <= n <= 8 || n == 14 || n == 16 || n == 21 || n == 26 || n == 28 || n == 29 || 32 <= n <= 34
  }

  /** The states that ask for a message: always, or if their place has one, or if there is a certificate. */
  predicate AlwaysAsks(n: nat) {
    n == 2 || n == 6 || n == 8 || n == 16 || n == 19 || n == 28 || n == 34
  }

  predicate AsksIfPresent(n: nat) {
    n == 3 || n == 4 || n == 14 || n == 26 || n == 29 || n == 32 || n == 33
  }

  predicate AsksIfCert(n: nat) {
    n == 7
  }

  /** The state after this one. */
  function Succ(n: nat, resumed: bool): nat {
    if n == 17 || n >= 36 then 37
    else if !resumed || n == 12 || n == 14 || n == 15 then n + 1
    else if n == 2 then 14
    else if n == 13 then 17
    else if n == 16 then 12
    else if n == 22 then 35
    else if n == 34 then 36
    else if n == 35 then 30
    else n + 1
  }

  /** What ssl_run_handshake has to wait for after the state. */
  function WaitOf(n: nat): Wait {
    if n == 0 || n == 12 || n == 25 || n == 35 then Flush
    else if n == 14 || n == 30 then ReadCcs
    else Ok
  }

  function ClientCcsAt(f: Facts): nat {
    if f.params.resumed then 5 else 10
  }

  function ServerCcsAt(f: Facts): nat {
    if f.params.resumed then 3 else 15
  }

  function TicketAt(f: Facts): nat {
    if f.params.resumed then 2 else 14
  }
}
