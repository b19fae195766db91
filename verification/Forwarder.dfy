/** The KA forwarder: it relays the requests of clients to a ring of servers, and their replies back, with
    nothing but the client's address in a header to tell where a reply belongs. */
module Forwarder {
  import opened Integers

  type Host = s: seq<byte> | |s| == 4 witness [0, 0, 0, 0]
  type Port = s: seq<byte> | |s| == 2 witness [0, 0]
  type Junk = s: seq<byte> | |s| == 2 witness [0, 0]

  datatype Address = Address(host: Host, port: Port)
  datatype Datagram = Datagram(src: Address, dst: Address, data: seq<byte>)

  const HEADER_LEN: nat := 8
  const BUFFER_SIZE: nat := 2048
  const PACKET_SIZE: nat := 1024

  /** What a receive into a buffer of `size` bytes keeps of a datagram. */
  function Clip(data: seq<byte>, size: nat): seq<byte> {
    if |data| <= size then data else data[..size]
  }

  /** The header names the client; its last two bytes are whatever the buffer held. */
  function Header(client: Address, junk: Junk): seq<byte> {
    client.host + client.port + junk
  }

  function Named(data: seq<byte>): Address
    requires |data| >= HEADER_LEN
  {
    Address(data[..4], data[4..6])
  }

  lemma NamedHeader(client: Address, junk: Junk, body: seq<byte>)
    ensures |Header(client, junk)| == HEADER_LEN
    ensures Named(Header(client, junk) + body) == client
    ensures (Header(client, junk) + body)[HEADER_LEN..] == body
  {
    var data := Header(client, junk) + body;
    assert data[..4] == client.host && data[4..6] == client.port;
  }

  // ----- one forwarder

  datatype Send = Nothing | Send(to: Address, data: seq<byte>)

  function Turn(cur: nat, n: nat): nat
    requires n > 0
  {
    (cur + 1) % n
  }

  /** What the forwarder sends when `data` arrives from `from`; a reply too short for its header cannot be sent. */
  function Relay(servers: seq<Address>, cur: nat, junk: Junk, from: Address, data: seq<byte>): Send
    requires |servers| > 0
  {
    var got := Clip(data, BUFFER_SIZE - HEADER_LEN);
    if from in servers then
      if |got| < HEADER_LEN then Nothing else Send(Named(got), got[HEADER_LEN..])
    else
      Send(servers[Turn(cur, |servers|)], Header(from, junk) + got)
  }

  lemma SliceOfSlice(buf: seq<byte>, lo: nat, hi: nat, i: nat, j: nat)
    requires i <= j && lo + j <= hi <= |buf|
    ensures buf[lo..hi][i..j] == buf[lo + i..lo + j]
  {
    forall k | 0 <= k < j - i ensures buf[lo..hi][i..j][k] == buf[lo + i..lo + j][k] {
    }
  }

  /** What is not from a server goes to the next one behind a header; what is goes, without its header, to the
      address in it, or nowhere if it is too short for one. */
  lemma RelayIs(servers: seq<Address>, cur: nat, junk: Junk, from: Address, data: seq<byte>)
    requires |servers| > 0
    ensures from !in servers ==>
      Relay(servers, cur, junk, from, data)
        == Send(servers[(cur + 1) % |servers|], from.host + from.port + junk + Clip(data, 2040))
    ensures from in servers && |data| < 8 ==> Relay(servers, cur, junk, from, data) == Nothing
    ensures from in servers && |data| >= 8 ==>
      Relay(servers, cur, junk, from, data) == Send(Address(data[..4], data[4..6]), Clip(data, 2040)[8..])
  {
    assert |data| > 2040 ==> data[..2040][..4] == data[..4] && data[..2040][4..6] == data[4..6];
  }

  class Relayer {
    const servers: seq<Address>
    var curServer: nat

    constructor (servers: seq<Address>)
      requires |servers| > 0
      ensures this.servers == servers && curServer == 0
    {
      this.servers, curServer := servers, 0;
    }

    method PacketIsReply(from: Address) returns (b: bool)
      ensures b <==> from in servers
    {
      for i := 0 to |servers|
        invariant from !in servers[..i]
      {
        if from.host == servers[i].host && from.port == servers[i].port {
          return true;
        }
      }
      b := false;
    }

    /** The buffer starts with whatever was on the stack; the datagram goes behind room for a header. */
    method Receive(data: seq<byte>) returns (buf: array<byte>, rv: nat, ghost junk: Junk)
      ensures fresh(buf) && buf.Length == BUFFER_SIZE && rv <= BUFFER_SIZE - HEADER_LEN
      ensures buf[6..8] == junk && buf[8..8 + rv] == Clip(data, BUFFER_SIZE - HEADER_LEN)
    {
      buf := new byte[BUFFER_SIZE];
      rv := if |data| <= BUFFER_SIZE - HEADER_LEN then |data| else BUFFER_SIZE - HEADER_LEN;
      junk := buf[6..8];
      forall i | 0 <= i < rv {
        buf[8 + i] := data[i];
      }
    }

    method WriteHeader(buf: array<byte>, from: Address)
      requires buf.Length == BUFFER_SIZE
      modifies buf
      ensures buf[..8] == from.host + from.port + old(buf[6..8]) && buf[8..] == old(buf[8..])
    {
      forall i | 0 <= i < 4 {
        buf[i] := from.host[i];
      }
      forall i | 0 <= i < 2 {
        buf[4 + i] := from.port[i];
      }
    }

    /** One turn of the loop. */
    method Handle(from: Address, data: seq<byte>) returns (sent: Send, ghost junk: Junk)
      requires |servers| > 0
      modifies this`curServer
      ensures sent == Relay(servers, old(curServer), junk, from, data)
      ensures from !in servers ==>
        && curServer == (old(curServer) + 1) % |servers|
        && sent == Send(servers[curServer], from.host + from.port + junk + Clip(data, 2040))
      ensures from in servers ==>
        && curServer == old(curServer)
        && sent == if |data| < 8 then Nothing
                   else Send(Address(data[..4], data[4..6]), Clip(data, 2040)[8..])
    {
      var buf, rv;
      buf, rv, junk := Receive(data);
      RelayIs(servers, curServer, junk, from, data);
      var isReply := PacketIsReply(from);
      if isReply {
        var to := Address(buf[8..12], buf[12..14]);
        if rv < 8 {
          sent := Nothing;
        } else {
          sent := Send(to, buf[16..16 + rv - 8]);
          SliceOfSlice(buf[..], 8, 8 + rv, 0, 4);
          SliceOfSlice(buf[..], 8, 8 + rv, 4, 6);
          SliceOfSlice(buf[..], 8, 8 + rv, 8, rv);
        }
      } else {
        curServer := (curServer + 1) % |servers|;
        ghost var got := buf[8..8 + rv];
        WriteHeader(buf, from);
        sent := Send(servers[curServer], buf[..rv + 8]);
        assert buf[8..8 + rv] == buf[8..][..rv] == got;
        assert buf[..rv + 8] == buf[..8] + buf[8..8 + rv];
      }
    }
  }

  // ----- clients, one forwarder and its servers

  /** `asked` and `computed` record what clients have sent, and what servers have answered to what from
      whom; `given` records where the forwarder has sent what did not come from a server. */
  datatype State = State(cur: nat, net: set<Datagram>, asked: set<(Address, seq<byte>)>,
                         computed: set<(Address, seq<byte>, seq<byte>)>, given: seq<Address>)

  datatype Config = Config(self: Address, servers: seq<Address>)

  ghost predicate Sensible(c: Config) {
    |c.servers| > 0 && c.self !in c.servers
  }

  ghost predicate IsClient(c: Config, a: Address) {
    a != c.self && a !in c.servers
  }

  /** A step picks a datagram and leaves it in the network: datagrams may be repeated, reordered and lost. */
  datatype Step =
    | Ask(client: Address, data: seq<byte>)
    | AskDirectly(client: Address, server: Address, data: seq<byte>)
    | Forward(d: Datagram, junk: Junk)
    | Serve(d: Datagram, out: seq<byte>)

  ghost function Init(c: Config): State {
    State(0, {}, {}, {}, [])
  }

  /** What a server sees of a request: with a header from the forwarder's host, as it is from any other. */
  function Seen(c: Config, d: Datagram): seq<byte> {
    var got := Clip(d.data, PACKET_SIZE);
    if d.src.host == c.self.host && |got| >= HEADER_LEN then got[HEADER_LEN..] else got
  }

  /** Whose request a server serves: that of the client in the header, or of the sender itself. */
  function Requester(c: Config, d: Datagram): Address {
    var got := Clip(d.data, PACKET_SIZE);
    if d.src.host == c.self.host && |got| >= HEADER_LEN then Named(got) else d.src
  }

  function Wrapped(c: Config, d: Datagram, out: seq<byte>): seq<byte> {
    var got := Clip(d.data, PACKET_SIZE);
    if d.src.host == c.self.host && |got| >= HEADER_LEN then got[..HEADER_LEN] + out else out
  }

  ghost predicate Enabled(c: Config, s: State, step: Step) {
    match step
    case Ask(client, data) => IsClient(c, client)
    case AskDirectly(client, server, data) => IsClient(c, client) && client.host != c.self.host && server in c.servers
    case Forward(d, junk) => d in s.net && d.dst == c.self
    case Serve(d, out) => d in s.net && d.dst in c.servers && |out| <= PACKET_SIZE - HEADER_LEN
  }

  ghost function Next(c: Config, s: State, step: Step): State
    requires |c.servers| > 0
  {
    match step
    case Ask(client, data) =>
      s.(net := s.net + {Datagram(client, c.self, data)}, asked := s.asked + {(client, data)})
    case AskDirectly(client, server, data) =>
      s.(net := s.net + {Datagram(client, server, data)}, asked := s.asked + {(client, data)})
    case Forward(d, junk) =>
      var sent := Relay(c.servers, s.cur, junk, d.src, d.data);
      var s1 := if sent.Nothing? then s else s.(net := s.net + {Datagram(c.self, sent.to, sent.data)});
      if d.src in c.servers then s1
      else
        s1.(cur := Turn(s.cur, |c.servers|), given := if sent.Nothing? then s.given else s.given + [sent.to])
    case Serve(d, out) =>
      s.(net := s.net + {Datagram(d.dst, d.src, Wrapped(c, d, out))},
        computed := s.computed + {(Requester(c, d), Seen(c, d), out)})
  }

  /** `body` is what is left of something that `client` asked. */
  ghost predicate Asked(s: State, client: Address, body: seq<byte>, size: nat) {
    exists data :: (client, data) in s.asked && body == Clip(data, size)
  }

  /** `out` is what a server has computed from something that this very client asked. */
  ghost predicate Answers(s: State, client: Address, out: seq<byte>, size: nat) {
    exists data :: (client, data) in s.asked && (client, Clip(data, size), out) in s.computed
  }

  /** Every datagram in the network is what its two ends make it. */
  ghost predicate Proper(c: Config, s: State, d: Datagram) {
    if IsClient(c, d.src) then
      (d.src, d.data) in s.asked && (d.dst == c.self || (d.dst in c.servers && d.src.host != c.self.host))
    else if d.src == c.self && d.dst in c.servers then
      && |d.data| >= HEADER_LEN && IsClient(c, Named(d.data))
      && Asked(s, Named(d.data), d.data[HEADER_LEN..], BUFFER_SIZE - HEADER_LEN)
    else if d.src == c.self then
      IsClient(c, d.dst) && Answers(s, d.dst, d.data, PACKET_SIZE - HEADER_LEN)
    else if d.dst == c.self then
      && HEADER_LEN <= |d.data| <= PACKET_SIZE
      && IsClient(c, Named(d.data)) && Answers(s, Named(d.data), d.data[HEADER_LEN..], PACKET_SIZE - HEADER_LEN)
    else
      IsClient(c, d.dst) && Answers(s, d.dst, d.data, PACKET_SIZE)
  }

  /** The servers are given requests in turn, beginning with the second one. */
  ghost predicate InTurn(servers: seq<Address>, given: seq<Address>)
    requires |servers| > 0
  {
    forall j :: 0 <= j < |given| ==> given[j] == servers[(j + 1) % |servers|]
  }

  ghost predicate Fair(c: Config, s: State)
    requires |c.servers| > 0
  {
    s.cur == |s.given| % |c.servers| && InTurn(c.servers, s.given)
  }

  ghost predicate Inv(c: Config, s: State) {
    |c.servers| > 0 && Fair(c, s) && forall d :: d in s.net ==> Proper(c, s, d)
  }

  // ----- every step keeps the invariant

  lemma ProperLater(c: Config, s: State, t: State, d: Datagram)
    requires Proper(c, s, d) && s.asked <= t.asked && s.computed <= t.computed
    ensures Proper(c, t, d)
  {
    assert forall a, body, n :: Asked(s, a, body, n) ==> Asked(t, a, body, n);
    assert forall a, out, n :: Answers(s, a, out, n) ==> Answers(t, a, out, n);
  }

  lemma ForwardProper(c: Config, s: State, d: Datagram, junk: Junk)
    requires Sensible(c) && Inv(c, s) && Enabled(c, s, Forward(d, junk))
    ensures var sent := Relay(c.servers, s.cur, junk, d.src, d.data);
      sent.Nothing? || Proper(c, s, Datagram(c.self, sent.to, sent.data))
  {
    assert Proper(c, s, d);
    if IsClient(c, d.src) {
      var got := Clip(d.data, BUFFER_SIZE - HEADER_LEN);
      NamedHeader(d.src, junk, got);
      assert Asked(s, d.src, got, BUFFER_SIZE - HEADER_LEN);
    }
  }

  lemma ClipTwice(data: seq<byte>, full: seq<byte>)
    requires |data| >= HEADER_LEN && data[HEADER_LEN..] == Clip(full, BUFFER_SIZE - HEADER_LEN)
    ensures var got := Clip(data, PACKET_SIZE);
      && |got| >= HEADER_LEN && got[..4] == data[..4] && got[4..6] == data[4..6]
      && got[HEADER_LEN..] == Clip(full, PACKET_SIZE - HEADER_LEN)
  {
    var body := PACKET_SIZE - HEADER_LEN;
    var inner := data[HEADER_LEN..];
    assert |data| == HEADER_LEN + |inner|;
    ClipClip(full, BUFFER_SIZE - HEADER_LEN, body);
    if |data| > PACKET_SIZE {
      ClipTail(data, HEADER_LEN, PACKET_SIZE);
      assert Clip(inner, body) == inner[..body];
    } else {
      assert Clip(inner, body) == inner;
    }
  }

  lemma ClipTail(data: seq<byte>, h: nat, n: nat)
    requires 6 <= h <= n <= |data|
    ensures data[..n][h..] == data[h..][..n - h] && data[..n][..4] == data[..4] && data[..n][4..6] == data[4..6]
  {
  }

  lemma ClipClip(full: seq<byte>, m: nat, n: nat)
    requires n <= m
    ensures Clip(Clip(full, m), n) == Clip(full, n)
  {
  }

  lemma Rewrapped(header: seq<byte>, out: seq<byte>)
    requires |header| == HEADER_LEN
    ensures var reply := header + out;
      && |reply| == HEADER_LEN + |out| && reply[HEADER_LEN..] == out
      && reply[..4] == header[..4] && reply[4..6] == header[4..6]
  {
  }

  lemma ServeProper(c: Config, s: State, d: Datagram, out: seq<byte>)
    requires Sensible(c) && Inv(c, s) && Enabled(c, s, Serve(d, out))
    ensures Proper(c, Next(c, s, Serve(d, out)), Datagram(d.dst, d.src, Wrapped(c, d, out)))
  {
    var t := Next(c, s, Serve(d, out));
    var got := Clip(d.data, PACKET_SIZE);
    assert Proper(c, s, d) && (Requester(c, d), Seen(c, d), out) in t.computed;
    if IsClient(c, d.src) {
      assert (d.src, d.data) in t.asked && (d.src, Clip(d.data, PACKET_SIZE), out) in t.computed;
    } else {
      var client := Named(d.data);
      var full :| (client, full) in s.asked && d.data[HEADER_LEN..] == Clip(full, BUFFER_SIZE - HEADER_LEN);
      ClipTwice(d.data, full);
      Rewrapped(got[..HEADER_LEN], out);
      var reply := got[..HEADER_LEN] + out;
      assert got[..HEADER_LEN][..4] == got[..4] && got[..HEADER_LEN][4..6] == got[4..6];
      assert Named(reply) == client && Named(got) == client;
      assert (client, full) in t.asked && (client, Clip(full, PACKET_SIZE - HEADER_LEN), out) in t.computed;
      assert Answers(t, client, out, PACKET_SIZE - HEADER_LEN);
    }
  }

  lemma Multiple(a: int, n: int)
    requires a >= 1 && n >= 1
    ensures a * n >= n
  {
    assert (a - 1) * n >= 0;
    assert a * n == (a - 1) * n + n;
  }

  lemma Divided(x: int, q: int, r: int, n: int)
    requires 0 <= r < n && x == q * n + r
    ensures x / n == q && x % n == r
  {
    var (q', r') := (x / n, x % n);
    assert x == q' * n + r';
    assert (q - q') * n == q * n - q' * n && (q' - q) * n == q' * n - q * n;
    if q > q' {
      Multiple(q - q', n);
    } else if q < q' {
      Multiple(q' - q, n);
    }
  }

  lemma NextTurn(k: nat, n: nat)
    requires n > 0
    ensures Turn(k % n, n) == (k + 1) % n == if k % n + 1 == n then 0 else k % n + 1
  {
    var (q, r) := (k / n, k % n);
    if r + 1 == n {
      assert k + 1 == q * n + n == (q + 1) * n + 0;
      Divided(k + 1, q + 1, 0, n);
      Divided(r + 1, 1, 0, n);
    } else {
      Divided(k + 1, q, r + 1, n);
      Divided(r + 1, 0, r + 1, n);
    }
  }

  /** What arrives from a client or a stranger is always sent on, to the server after the one that had the last,
      with the sender's address in front; and an answer of a server goes, without its header, to the address in
      that, unless it is too short to have one. */
  lemma ForwardsExactly(c: Config, s: State, d: Datagram, junk: Junk)
    requires |c.servers| > 0
    ensures var t := Next(c, s, Forward(d, junk));
      if d.src !in c.servers then
        var to := c.servers[(s.cur + 1) % |c.servers|];
        && t.net == s.net + {Datagram(c.self, to, d.src.host + d.src.port + junk + Clip(d.data, 2040))}
        && t.given == s.given + [to] && t.cur == (s.cur + 1) % |c.servers|
      else
        && t.given == s.given && t.cur == s.cur
        && t.net == s.net + if |d.data| < 8 then {}
                            else {Datagram(c.self, Address(d.data[..4], d.data[4..6]), Clip(d.data, 2040)[8..])}
  {
    RelayIs(c.servers, s.cur, junk, d.src, d.data);
    hide Relay;
  }

  lemma StepKeepsFair(c: Config, s: State, step: Step)
    requires Sensible(c) && Fair(c, s)
    ensures Fair(c, Next(c, s, step))
  {
    hide Turn, Relay, Wrapped, Seen, Requester;
    if step.Forward? {
      ForwardsExactly(c, s, step.d, step.junk);
      NextTurn(|s.given|, |c.servers|);
      NextTurn(s.cur, |c.servers|);
    }
  }

  lemma NewDatagram(c: Config, s: State, step: Step, d: Datagram)
    requires Sensible(c) && Inv(c, s) && Enabled(c, s, step)
    requires d in Next(c, s, step).net && d !in s.net
    ensures Proper(c, Next(c, s, step), d)
  {
    hide Relay, Wrapped, Seen, Requester, Turn;
    var t := Next(c, s, step);
    match step {
      case Forward(e, junk) =>
        ForwardProper(c, s, e, junk);
        ProperLater(c, s, t, d);
      case Serve(e, out) =>
        ServeProper(c, s, e, out);
      case _ =>
    }
  }

  lemma StepKeepsInv(c: Config, s: State, step: Step)
    requires Sensible(c) && Inv(c, s) && Enabled(c, s, step)
    ensures Inv(c, Next(c, s, step))
  {
    hide Relay, Wrapped, Seen, Requester, Turn, Proper;
    var t := Next(c, s, step);
    StepKeepsFair(c, s, step);
    forall d | d in t.net ensures Proper(c, t, d) {
      if d in s.net {
        ProperLater(c, s, t, d);
      } else {
        NewDatagram(c, s, step, d);
      }
    }
  }

  /** A run: each state follows from the one before by an enabled step. */
  ghost predicate Run(c: Config, states: seq<State>, steps: seq<Step>) {
    && Sensible(c) && |states| == |steps| + 1 && states[0] == Init(c)
    && forall i :: 0 <= i < |steps| ==> StepOf(c, states[i], steps[i], states[i + 1])
  }

  ghost predicate StepOf(c: Config, s: State, step: Step, t: State) {
    |c.servers| > 0 && Enabled(c, s, step) && t == Next(c, s, step)
  }

  lemma {:induction false} Reachable(c: Config, states: seq<State>, steps: seq<Step>, i: nat)
    requires Run(c, states, steps) && i < |states|
    ensures Inv(c, states[i])
    decreases i
  {
    if i > 0 {
      Reachable(c, states, steps, i - 1);
      assert StepOf(c, states[i - 1], steps[i - 1], states[i]);
      StepKeepsInv(c, states[i - 1], steps[i - 1]);
    }
  }

  /** Whatever reaches a client is an unchanged answer to something that very client asked. */
  lemma RepliesReachTheirClients(c: Config, states: seq<State>, steps: seq<Step>, i: nat, d: Datagram)
    requires Run(c, states, steps) && i < |states|
    requires d in states[i].net && IsClient(c, d.dst)
    ensures Answers(states[i], d.dst, d.data, PACKET_SIZE - HEADER_LEN)
      || (d.src in c.servers && Answers(states[i], d.dst, d.data, PACKET_SIZE))
  {
    Reachable(c, states, steps, i);
    assert Proper(c, states[i], d);
  }

  // ----- the requests are shared out

  lemma {:induction false} Around(m: nat, i: nat, n: nat)
    requires i < n
    ensures (m + i) % n == if m % n + i < n then m % n + i else m % n + i - n
  {
    if i > 0 {
      Around(m, i - 1, n);
      NextTurn(m + i - 1, n);
    }
  }

  /** A full round is the list of servers, beginning somewhere else. */
  lemma FullRound(servers: seq<Address>, given: seq<Address>)
    requires |given| >= |servers| > 0 && InTurn(servers, given)
    ensures multiset(given[|given| - |servers|..]) == multiset(servers)
  {
    var n, m := |servers|, |given| - |servers| + 1;
    var a, last := m % n, given[|given| - n..];
    forall i | 0 <= i < n ensures last[i] == (servers[a..] + servers[..a])[i] {
      Around(m, i, n);
      assert last[i] == given[m + i - 1];
    }
    assert last == servers[a..] + servers[..a];
    assert servers == servers[..a] + servers[a..];
  }

  /** So many full rounds, and at most one more that has begun. */
  ghost predicate Shared(count: nat, rounds: nat, times: nat) {
    rounds * times <= count <= (rounds + 1) * times
  }

  lemma {:induction false} GivenCount(servers: seq<Address>, given: seq<Address>, x: Address)
    requires |servers| > 0 && InTurn(servers, given)
    ensures Shared(multiset(given)[x], |given| / |servers|, multiset(servers)[x])
    decreases |given|
  {
    var n := |servers|;
    if |given| < n {
      Divided(|given|, 0, |given|, n);
      BegunRound(servers, given, x);
    } else {
      hide Shared;
      GivenCount(servers, given[..|given| - n], x);
      LastRound(servers, given, x);
      Rounds(|given|, n, multiset(servers)[x], multiset(given[..|given| - n])[x]);
    }
  }

  lemma LastRound(servers: seq<Address>, given: seq<Address>, x: Address)
    requires |given| >= |servers| > 0 && InTurn(servers, given)
    ensures multiset(given)[x] == multiset(given[..|given| - |servers|])[x] + multiset(servers)[x]
  {
    FullRound(servers, given);
    assert given == given[..|given| - |servers|] + given[|given| - |servers|..];
  }

  /** The round that has begun is a part of the list. */
  lemma BegunRound(servers: seq<Address>, given: seq<Address>, x: Address)
    requires |given| < |servers| && InTurn(servers, given)
    ensures multiset(given)[x] <= multiset(servers)[x]
  {
    forall j | 0 <= j < |given| ensures given[j] == servers[1..|given| + 1][j] {
      Divided(j + 1, 0, j + 1, |servers|);
    }
    assert given == servers[1..|given| + 1];
    assert servers == servers[..1] + given + servers[|given| + 1..];
  }

  lemma Rounds(g: nat, n: nat, m: nat, count: nat)
    requires g >= n > 0 && Shared(count, (g - n) / n, m)
    ensures Shared(count + m, g / n, m)
  {
    var k := (g - n) / n;
    assert g == k * n + n + (g - n) % n == (k + 1) * n + (g - n) % n;
    Divided(g, k + 1, (g - n) % n, n);
    assert (k + 1) * m == k * m + m && (k + 2) * m == (k + 1) * m + m;
  }

  /** In every run the j-th request goes to the j-th server, counted from the second one and around the ring, so
      that of so many full rounds each server has been given one request for each time that it is listed, and at
      most as many more of the round that has begun; servers that are listed once differ by one at most. */
  lemma RoundRobin(c: Config, states: seq<State>, steps: seq<Step>, i: nat)
    requires Run(c, states, steps) && i < |states|
    ensures |c.servers| > 0 && InTurn(c.servers, states[i].given)
    ensures forall x ::
      Shared(multiset(states[i].given)[x], |states[i].given| / |c.servers|, multiset(c.servers)[x])
    ensures forall x, y :: multiset(c.servers)[x] == 1 && multiset(c.servers)[y] == 1 ==>
      multiset(states[i].given)[x] <= multiset(states[i].given)[y] + 1
  {
    hide *;
    Reachable(c, states, steps, i);
    FairTurns(c, states[i]);
    EachShared(c.servers, states[i].given);
  }

  lemma FairTurns(c: Config, s: State)
    requires Inv(c, s)
    ensures |c.servers| > 0 && InTurn(c.servers, s.given)
  {
    hide Proper;
  }

  lemma EachShared(servers: seq<Address>, given: seq<Address>)
    requires |servers| > 0 && InTurn(servers, given)
    ensures forall x :: Shared(multiset(given)[x], |given| / |servers|, multiset(servers)[x])
    ensures forall x, y :: multiset(servers)[x] == 1 && multiset(servers)[y] == 1 ==>
      multiset(given)[x] <= multiset(given)[y] + 1
  {
    hide *;
    forall x ensures Shared(multiset(given)[x], |given| / |servers|, multiset(servers)[x]) {
      GivenCount(servers, given, x);
    }
    forall x, y | multiset(servers)[x] == 1 && multiset(servers)[y] == 1
      ensures multiset(given)[x] <= multiset(given)[y] + 1
    {
      GivenOnce(servers, given, x);
      GivenOnce(servers, given, y);
    }
  }

  lemma GivenOnce(servers: seq<Address>, given: seq<Address>, x: Address)
    requires |servers| > 0 && InTurn(servers, given) && multiset(servers)[x] == 1
    ensures |given| / |servers| <= multiset(given)[x] <= |given| / |servers| + 1
  {
    GivenCount(servers, given, x);
    hide InTurn;
  }
}
