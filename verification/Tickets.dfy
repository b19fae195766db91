/** The KA server: the tickets it issues and the tickets it accepts. */
module Tickets {
  import opened Integers
  import opened Packets
  import Lifetimes

  type Bytes = seq<byte>

  // sizes and clock skew of the Kerberos IV library
  const NAME_SIZE: nat := 40
  const CLOCK_SKEW: int := 300

  const KANOENT: int := 180484
  const KABADREQUEST: int := 180490
  const KABADTICKET: int := 180504
  const KABADSERVER: int := 180507
  const KABADUSER: int := 180508
  const KACLOCKSKEW: int := 180514
  const KAINTERNALERROR: int := 180518

  const KRBTGT: Bytes := [107, 114, 98, 116, 103, 116]
  const AFS: Bytes := [97, 102, 115]
  const EMT: Bytes := [101, 109, 116]
  const ADM: Bytes := [97, 100, 109]
  const ADMIN: Bytes := [97, 100, 109, 105, 110]

  function Lower(b: byte): byte {
    if 65 <= b <= 90 then b + 32 else b
  }

  predicate EqFold(a: Bytes, b: Bytes) {
    |a| == |b| && forall i :: 0 <= i < |a| ==> Lower(a[i]) == Lower(b[i])
  }

  /** Encryption under an eight-byte key; `ecb` undoes the encryption of the single block of times. */
  datatype Cipher = Cipher(enc: (Bytes, Bytes) -> Bytes, dec: (Bytes, Bytes) -> Bytes, ecb: (Bytes, Bytes) -> Bytes,
                           usable: Bytes -> bool)

  ghost predicate Invertible(c: Cipher) {
    && (forall k, d :: |c.enc(k, d)| == |d|)
    && (forall k, d :: |c.dec(k, d)| == |d|)
    && (forall k, d :: |c.ecb(k, d)| == |d|)
    && (forall k, d :: |d| % 8 == 0 ==> c.dec(k, c.enc(k, d)) == d)
  }

  // ----- the principal database

  datatype Princ = Princ(key: Bytes, maxLife: int, kvno: int, expires: int, pwExpires: int, needsPwChange: bool,
                         disallowed: bool)
  datatype Found = Refused(code: int) | Found(princ: Princ)
  type Database = map<(Bytes, Bytes), Princ>

  datatype Conf = Conf(cell: Bytes, realm: Bytes, maxLife: int)

  function CheckPrinc(db: Database, now: int, name: Bytes, inst: Bytes): (f: Found)
    ensures f.Refused? ==> f.code in {KANOENT, KABADUSER}
  {
    if name == [] || (name, inst) !in db then Refused(KANOENT)
    else
      var p := db[(name, inst)];
      if p.expires != 0 && p.expires < now then Refused(KABADUSER)
      else if (p.pwExpires != 0 && p.pwExpires < now) || p.needsPwChange then Refused(KABADUSER)
      else if p.disallowed then Refused(KABADUSER)
      else Found(p)
  }

  /** The database has no such principal. */
  ghost predicate Unknown(db: Database, name: Bytes, inst: Bytes) {
    name == [] || (name, inst) !in db
  }

  /** The principal is known, neither it nor its password has expired, no change of password is due, and it is
      not locked out. */
  ghost predicate InStanding(db: Database, now: int, name: Bytes, inst: Bytes) {
    && name != [] && (name, inst) in db
    && var p := db[(name, inst)];
    && (p.expires == 0 || now <= p.expires) && (p.pwExpires == 0 || now <= p.pwExpires)
    && !p.needsPwChange && !p.disallowed
  }

  ghost predicate Barred(db: Database, now: int, name: Bytes, inst: Bytes) {
    !Unknown(db, name, inst) && !InStanding(db, now, name, inst)
  }

  /** A check refuses exactly the unknown principals and those that may not have tickets, with different codes. */
  lemma CheckedExactly(db: Database, now: int, name: Bytes, inst: Bytes)
    ensures var f := CheckPrinc(db, now, name, inst);
      && (f == Refused(KANOENT) <==> Unknown(db, name, inst))
      && (f == Refused(KABADUSER) <==> Barred(db, now, name, inst))
      && (f.Found? <==> InStanding(db, now, name, inst))
      && (f.Found? ==> f == Found(db[(name, inst)]))
  {
  }

  predicate KeyOk(c: Cipher, p: Princ) {
    |p.key| == 8 && c.usable(p.key)
  }

  // ----- the ticket

  datatype Ticket = Ticket(flags: byte, cname: Bytes, cinst: Bytes, realm: Bytes, ipaddr: int, key: Bytes, life: byte,
                           start: int, sname: Bytes, sinst: Bytes)

  /** The bytes of a ticket, followed by `rest`. */
  function TicketThen(t: Ticket, rest: Bytes): Bytes {
    [t.flags] + (Str(t.cname) + (Str(t.cinst) + (Str(t.realm) + (IntBytes(t.ipaddr) + (t.key + ([t.life]
    + (IntBytes(t.start) + (Str(t.sname) + (Str(t.sinst) + rest)))))))))
  }

  function Padded(b: Bytes): (p: Bytes)
    ensures |p| == PadTo(|b|, 8) && |p| % 8 == 0
  {
    b + Zeros(PadTo(|b|, 8) - |b|)
  }

  function Sealed(c: Cipher, key: Bytes, t: Ticket): Bytes {
    c.enc(key, Padded(TicketThen(t, [])))
  }

  datatype Opened = Malformed | Opened(ticket: Ticket)

  /** What a reader makes of the bytes of a ticket. */
  function TicketOf(b: Bytes): Opened {
    match GetChar(b) case Bad => Malformed case Got(flags, b1) =>
    match GetStr(b1, NAME_SIZE) case Bad => Malformed case Got(cname, b2) =>
    match GetStr(b2, NAME_SIZE) case Bad => Malformed case Got(cinst, b3) =>
    match GetStr(b3, NAME_SIZE) case Bad => Malformed case Got(realm, b4) =>
    match GetInt(b4) case Bad => Malformed case Got(ipaddr, b5) =>
    match GetBytes(b5, 8) case Bad => Malformed case Got(key, b6) =>
    match GetChar(b6) case Bad => Malformed case Got(life, b7) =>
    match GetInt(b7) case Bad => Malformed case Got(start, b8) =>
    match GetStr(b8, NAME_SIZE) case Bad => Malformed case Got(sname, b9) =>
    match GetStr(b9, NAME_SIZE) case Bad => Malformed case Got(sinst, b10) =>
    Opened(Ticket(flags, cname, cinst, realm, ipaddr, key, life, start, sname, sinst))
  }

  predicate Fits(s: Bytes) {
    0 !in s && |s| <= NAME_SIZE
  }

  ghost predicate Writable(t: Ticket) {
    Fits(t.cname) && Fits(t.cinst) && Fits(t.realm) && Fits(t.sname) && Fits(t.sinst) && |t.key| == 8
  }

  lemma TicketReadsBack(t: Ticket, rest: Bytes)
    requires Writable(t)
    ensures TicketOf(TicketThen(t, rest)) == Opened(t.(ipaddr := U32(t.ipaddr), start := U32(t.start)))
  {
    hide GetChar, GetInt, GetBytes, GetStr, IntBytes, Str;
    var b9 := Str(t.sinst) + rest;
    var b8 := Str(t.sname) + b9;
    var b7 := IntBytes(t.start) + b8;
    var b6 := [t.life] + b7;
    var b5 := t.key + b6;
    var b4 := IntBytes(t.ipaddr) + b5;
    var b3 := Str(t.realm) + b4;
    var b2 := Str(t.cinst) + b3;
    var b1 := Str(t.cname) + b2;
    GotChar(t.flags, b1);
    GotStr(t.cname, NAME_SIZE, b2);
    GotStr(t.cinst, NAME_SIZE, b3);
    GotStr(t.realm, NAME_SIZE, b4);
    GotInt(t.ipaddr, b5);
    GotBytes(t.key, b6);
    GotChar(t.life, b7);
    GotInt(t.start, b8);
    GotStr(t.sname, NAME_SIZE, b9);
    GotStr(t.sinst, NAME_SIZE, rest);
  }

  lemma TicketThenEnds(t: Ticket, rest: Bytes)
    ensures TicketThen(t, []) + rest == TicketThen(t, rest)
  {
    hide IntBytes, Str;
    var b9 := Str(t.sinst);
    assert b9 + [] == b9;
    var b8 := Str(t.sname) + b9;
    assert b8 + rest == Str(t.sname) + (b9 + rest);
    var b7 := IntBytes(t.start) + b8;
    assert b7 + rest == IntBytes(t.start) + (b8 + rest);
    var b6 := [t.life] + b7;
    assert b6 + rest == [t.life] + (b7 + rest);
    var b5 := t.key + b6;
    assert b5 + rest == t.key + (b6 + rest);
    var b4 := IntBytes(t.ipaddr) + b5;
    assert b4 + rest == IntBytes(t.ipaddr) + (b5 + rest);
    var b3 := Str(t.realm) + b4;
    assert b3 + rest == Str(t.realm) + (b4 + rest);
    var b2 := Str(t.cinst) + b3;
    assert b2 + rest == Str(t.cinst) + (b3 + rest);
    var b1 := Str(t.cname) + b2;
    assert b1 + rest == Str(t.cname) + (b2 + rest);
  }

  /** Opening a sealed ticket with the key it was sealed with gives the ticket back. */
  lemma SealedOpens(c: Cipher, key: Bytes, t: Ticket)
    requires Invertible(c) && Writable(t)
    ensures TicketOf(c.dec(key, Sealed(c, key, t))) == Opened(t.(ipaddr := U32(t.ipaddr), start := U32(t.start)))
  {
    hide TicketThen, TicketOf;
    var plain := TicketThen(t, []);
    var pad := Zeros(PadTo(|plain|, 8) - |plain|);
    TicketThenEnds(t, pad);
    TicketReadsBack(t, pad);
  }

  lemma TicketInOrder(w: Bytes, t: Ticket)
    ensures w + [t.flags] + Str(t.cname) + Str(t.cinst) + Str(t.realm) + IntBytes(t.ipaddr)
      + t.key + [t.life] + IntBytes(t.start)
              + Str(t.sname) + Str(t.sinst)
         == w + TicketThen(t, [])
  {
    hide IntBytes, Str;
    var b9 := Str(t.sinst);
    assert b9 + [] == b9;
    var b8 := Str(t.sname) + b9;
    var b7 := IntBytes(t.start) + b8;
    var b6 := [t.life] + b7;
    var b5 := t.key + b6;
    var b4 := IntBytes(t.ipaddr) + b5;
    var b3 := Str(t.realm) + b4;
    var b2 := Str(t.cinst) + b3;
    var b1 := Str(t.cname) + b2;
    var w1 := w + [t.flags];
    var w2 := w1 + Str(t.cname);
    var w3 := w2 + Str(t.cinst);
    var w4 := w3 + Str(t.realm);
    var w5 := w4 + IntBytes(t.ipaddr);
    var w6 := w5 + t.key;
    var w7 := w6 + [t.life];
    var w8 := w7 + IntBytes(t.start);
    assert w8 + b8 == w8 + Str(t.sname) + b9;
    assert w7 + b7 == w8 + b8;
    assert w6 + b6 == w7 + b7;
    assert w5 + b5 == w6 + b6;
    assert w4 + b4 == w5 + b5;
    assert w3 + b3 == w4 + b4;
    assert w2 + b2 == w3 + b3;
    assert w1 + b1 == w2 + b2;
    assert w + ([t.flags] + b1) == w1 + b1;
  }

  method PutTicketHead(w: Writer, t: Ticket)
    requires w.Valid() && (w.failed || w.Clean())
    modifies w, w.base
    ensures w.Valid() && (w.failed || w.Clean())
    ensures w.failed == (old(w.failed) || old(w.n) + 1 + |Str(t.cname)| + |Str(t.cinst)| + |Str(t.realm)| + 4 > w.maxn)
    ensures !w.failed ==>
      w.Written() == old(w.Written()) + [t.flags] + Str(t.cname) + Str(t.cinst) + Str(t.realm) + IntBytes(t.ipaddr)
  {
    hide IntBytes, Str;
    w.PutBytes([t.flags]);
    w.PutBytes(Str(t.cname));
    w.PutBytes(Str(t.cinst));
    w.PutBytes(Str(t.realm));
    w.PutBytes(IntBytes(t.ipaddr));
  }

  method PutTicketFields(w: Writer, t: Ticket)
    requires w.Valid() && (w.failed || w.Clean())
    modifies w, w.base
    ensures w.Valid() && (w.failed || w.Clean())
    ensures w.failed == (old(w.failed) || old(w.n) + |TicketThen(t, [])| > w.maxn)
    ensures !w.failed ==> w.Written() == old(w.Written()) + TicketThen(t, [])
  {
    hide TicketThen, IntBytes, Str;
    TicketInOrder(w.Written(), t);
    TicketLength(t);
    PutTicketHead(w, t);
    w.PutBytes(t.key);
    w.PutBytes([t.life]);
    w.PutBytes(IntBytes(t.start));
    w.PutBytes(Str(t.sname));
    w.PutBytes(Str(t.sinst));
  }

  lemma TicketLength(t: Ticket)
    ensures |TicketThen(t, [])|
      == 1 + |Str(t.cname)| + |Str(t.cinst)| + |Str(t.realm)| + 4 + |t.key| + 1 + 4 + |Str(t.sname)| + |Str(t.sinst)|
  {
  }

  method PutTicket(w: Writer, c: Cipher, key: Bytes, t: Ticket)
    requires Invertible(c) && w.Valid() && (w.failed || w.Clean())
    modifies w, w.base
    ensures w.Valid() && (w.failed || w.Clean())
    ensures w.failed == (old(w.failed) || old(w.n) + |Sealed(c, key, t)| > w.maxn)
    ensures !w.failed ==> w.Written() == old(w.Written()) + Sealed(c, key, t)
  {
    hide TicketThen;
    ghost var before := w.Written();
    var at := w.n;
    PutTicketFields(w, t);
    if !w.failed {
      w.Pad(PadTo(w.n - at, 8) - (w.n - at));
    }
    if !w.failed {
      var plain := w.base[at..w.n];
      assert w.Written() == before + Padded(TicketThen(t, []));
      assert plain == w.Written()[at..];
      w.Overwrite(at, c.enc(key, plain));
    }
  }

  // ----- the reply

  /** What a reply is asked to say; `key` encrypts it, `text` ends it. */
  datatype Order = Order(challenge: int, start: int, end: int, cname: Bytes, cinst: Bytes, sname: Bytes, sinst: Bytes,
                         key: Bytes, text: Bytes)

  function Min(a: int, b: int): int {
    if a < b then a else b
  }

  /** The lifetime asked for, bounded by those of the client, the service and the realm. */
  function Bounded(conf: Conf, client: Princ, service: Princ, start: int, end: int): int {
    Min(Min(Min(S32(end - start), client.maxLife), service.maxLife), conf.maxLife)
  }

  /** It is the least of the four. */
  lemma BoundedIsLeast(conf: Conf, client: Princ, service: Princ, start: int, end: int)
    ensures var r := Bounded(conf, client, service, start, end);
      && r <= S32(end - start) && r <= client.maxLife && r <= service.maxLife && r <= conf.maxLife
      && r in {S32(end - start), client.maxLife, service.maxLife, conf.maxLife}
  {
    hide S32;
  }

  /** The instance of the cell's own afs key is not shown. */
  function Shown(conf: Conf, o: Order): Bytes {
    if o.sname == AFS && EqFold(o.sinst, conf.cell) then [] else o.sinst
  }

  function Issued(conf: Conf, o: Order, lifetime: int, sessionKey: Bytes): Ticket {
    var life := Lifetimes.LifeByte(lifetime) as byte;
    Ticket(0, o.cname, o.cinst, [], 0, sessionKey, life, o.start, o.sname, Shown(conf, o))
  }

  function ReplyFront(o: Order, lifetime: int, kvno: int, sessionKey: Bytes): Bytes {
    IntBytes(0) + IntBytes(o.challenge) + sessionKey + IntBytes(o.start) + IntBytes(o.start + lifetime) + IntBytes(kvno)
  }

  function ReplyNames(conf: Conf, o: Order): Bytes {
    Str(o.cname) + (Str(o.cinst) + (Str([]) + (Str(o.sname) + Str(Shown(conf, o)))))
  }

  /** The part of a reply that only the client can read. */
  function ReplyPart(conf: Conf, o: Order, lifetime: int, kvno: int, sessionKey: Bytes, ticket: Bytes): Bytes {
    ReplyFront(o, lifetime, kvno, sessionKey) + IntBytes(|ticket|) + ReplyNames(conf, o) + ticket + o.text
  }

  function ReplyBytes(header: Bytes, c: Cipher, key: Bytes, part: Bytes): Bytes {
    header + IntBytes(0x2bc) + IntBytes(|Padded(part)|) + c.enc(key, Padded(part))
  }

  /** Room for a part of this size: its last string needs its final 0 for a moment. */
  predicate HasRoom(maxn: nat, part: nat) {
    36 + part + 1 <= maxn && 36 + PadTo(part, 8) <= maxn
  }

  method PutNames(w: Writer, conf: Conf, o: Order)
    requires w.Valid() && (w.failed || w.Clean())
    modifies w, w.base
    ensures w.Valid() && (w.failed || w.Clean())
    ensures w.failed == (old(w.failed) || old(w.n) + |ReplyNames(conf, o)| > w.maxn)
    ensures !w.failed ==> w.Written() == old(w.Written()) + ReplyNames(conf, o)
  {
    hide Str, Shown;
    ghost var before := w.Written();
    w.PutBytes(Str(o.cname));
    w.PutBytes(Str(o.cinst));
    w.PutBytes(Str([]));
    w.PutBytes(Str(o.sname));
    w.PutBytes(Str(Shown(conf, o)));
    assert before + Str(o.cname) + Str(o.cinst) + Str([]) + Str(o.sname) + Str(Shown(conf, o))
      == before + ReplyNames(conf, o);
  }

  method PutFront(w: Writer, o: Order, lifetime: int, kvno: int, sessionKey: Bytes)
    requires w.Valid() && (w.failed || w.Clean())
    modifies w, w.base
    ensures w.Valid() && (w.failed || w.Clean())
    ensures w.failed == (old(w.failed) || old(w.n) + |ReplyFront(o, lifetime, kvno, sessionKey)| > w.maxn)
    ensures !w.failed ==> w.Written() == old(w.Written()) + ReplyFront(o, lifetime, kvno, sessionKey)
  {
    hide IntBytes;
    ghost var before := w.Written();
    w.PutBytes(IntBytes(0));
    w.PutBytes(IntBytes(o.challenge));
    w.PutBytes(sessionKey);
    w.PutBytes(IntBytes(o.start));
    w.PutBytes(IntBytes(o.start + lifetime));
    w.PutBytes(IntBytes(kvno));
    assert before + IntBytes(0) + IntBytes(o.challenge) + sessionKey + IntBytes(o.start) + IntBytes(o.start + lifetime)
      + IntBytes(kvno)
        == before + ReplyFront(o, lifetime, kvno, sessionKey);
  }

  method PutPreamble(w: Writer, conf: Conf, o: Order, lifetime: int, kvno: int, sessionKey: Bytes) returns (lenAt: nat)
    requires w.Valid() && (w.failed || w.Clean())
    modifies w, w.base
    ensures w.Valid() && (w.failed || w.Clean())
    ensures w.failed
      == (old(w.failed) || old(w.n) + |ReplyFront(o, lifetime, kvno, sessionKey)| + 4 + |ReplyNames(conf, o)| > w.maxn)
    ensures !w.failed ==> lenAt == old(w.n) + |ReplyFront(o, lifetime, kvno, sessionKey)|
    ensures !w.failed ==>
      w.Written() == old(w.Written()) + ReplyFront(o, lifetime, kvno, sessionKey) + IntBytes(0) + ReplyNames(conf, o)
  {
    hide IntBytes, ReplyFront, ReplyNames;
    PutFront(w, o, lifetime, kvno, sessionKey);
    lenAt := w.n;
    w.PutBytes(IntBytes(0));
    PutNames(w, conf, o);
  }

  method PutPart(w: Writer, conf: Conf, c: Cipher, o: Order, lifetime: int, service: Princ, sessionKey: Bytes,
                 t: Ticket)
    requires t == Issued(conf, o, lifetime, sessionKey)
    requires Invertible(c) && w.Valid() && (w.failed || w.Clean())
    modifies w, w.base
    ensures w.Valid() && (w.failed || w.Clean())
    ensures var ticket := Sealed(c, service.key, Issued(conf, o, lifetime, sessionKey));
      var part := ReplyPart(conf, o, lifetime, service.kvno, sessionKey, ticket);
      && w.failed == (old(w.failed) || old(w.n) + |part| + 1 > w.maxn)
      && (!w.failed ==> w.Written() == old(w.Written()) + part)
  {
    hide IntBytes, Issued, ReplyFront, ReplyNames, Sealed, Invertible;
    ghost var before := w.Written();
    ghost var ticket := Sealed(c, service.key, t);
    ghost var front := ReplyFront(o, lifetime, service.kvno, sessionKey);
    ghost var names := ReplyNames(conf, o);
    var lenAt := PutPreamble(w, conf, o, lifetime, service.kvno, sessionKey);
    var ticketAt := w.n;
    PutTicket(w, c, service.key, t);
    if !w.failed {
      PatchedLength(before, front, names, ticket, w.Written());
      w.Patch(lenAt, w.n - ticketAt);
    }
    w.PutLabel(o.text);
    assert !w.failed ==> w.Written() == before + ReplyPart(conf, o, lifetime, service.kvno, sessionKey, ticket);
  }

  lemma Replaced(p: Bytes, x: Bytes, y: Bytes, q: Bytes)
    ensures (p + x + q)[..|p|] + y + (p + x + q)[|p| + |x|..] == p + y + q
  {
    assert (p + x + q)[..|p|] == p && (p + x + q)[|p| + |x|..] == q;
  }

  lemma Regroup(a: Bytes, b: Bytes, x: Bytes, c: Bytes, d: Bytes)
    ensures a + b + x + c + d == a + b + x + (c + d)
    ensures a + b + x + (c + d) == a + (b + x + c + d)
  {
    assert b + x + c + d == b + x + (c + d);
  }

  lemma PatchedLength(before: Bytes, front: Bytes, names: Bytes, ticket: Bytes, w: Bytes)
    requires w == before + front + IntBytes(0) + names + ticket
    ensures var at := |before| + |front|;
      w[..at] + IntBytes(|ticket|) + w[at + 4..] == before + (front + IntBytes(|ticket|) + names + ticket)
  {
    hide IntBytes;
    Regroup(before, front, IntBytes(0), names, ticket);
    Replaced(before + front, IntBytes(0), IntBytes(|ticket|), names + ticket);
    Regroup(before, front, IntBytes(|ticket|), names, ticket);
  }

  /** The lifetime, the ticket and the readable part of a reply to a known client for a known service. */
  function Granted(conf: Conf, client: Princ, service: Princ, o: Order, sessionKey: Bytes): Ticket {
    Issued(conf, o, Bounded(conf, client, service, o.start, o.end), sessionKey)
  }

  function PartFor(conf: Conf, c: Cipher, client: Princ, service: Princ, o: Order, sessionKey: Bytes): Bytes {
    ReplyPart(conf, o, Bounded(conf, client, service, o.start, o.end), service.kvno, sessionKey,
              Sealed(c, service.key, Granted(conf, client, service, o, sessionKey)))
  }

  /** The code that make_reply_packet returns. */
  function ReplyCode(db: Database, conf: Conf, c: Cipher, now: int, o: Order, sessionKey: Bytes, maxn: nat): int {
    match CheckPrinc(db, now, o.cname, o.cinst)
    case Refused(code) => code
    case Found(client) =>
      match CheckPrinc(db, now, o.sname, o.sinst)
      case Refused(code) => code
      case Found(service) =>
        if HasRoom(maxn, |PartFor(conf, c, client, service, o, sessionKey)|) && KeyOk(c, service) then 0
        else KAINTERNALERROR
  }

  /** The whole reply, under the header that the buffer holds already. */
  function ReplyFor(db: Database, conf: Conf, c: Cipher, o: Order, sessionKey: Bytes, header: Bytes): Bytes
    requires (o.cname, o.cinst) in db && (o.sname, o.sinst) in db
  {
    ReplyBytes(header, c, o.key, PartFor(conf, c, db[(o.cname, o.cinst)], db[(o.sname, o.sinst)], o, sessionKey))
  }

  /** Whoever holds the key finds the session key, the times, the length of the ticket and the sealed
      ticket itself where the protocol puts them. */
  lemma ReplyOpens(conf: Conf, c: Cipher, o: Order, lifetime: int, kvno: int, header: Bytes, sessionKey: Bytes,
                   ticket: Bytes)
    requires Invertible(c) && |header| == 28 && |sessionKey| == 8
    ensures var part := ReplyPart(conf, o, lifetime, kvno, sessionKey, ticket);
      var reply := ReplyBytes(header, c, o.key, part);
      |reply| == 36 + |Padded(part)| && c.dec(o.key, reply[36..]) == Padded(part)
    ensures var plain := Padded(ReplyPart(conf, o, lifetime, kvno, sessionKey, ticket));
      var at := 32 + |ReplyNames(conf, o)|;
      && |plain| >= at + |ticket|
      && plain[..4] == IntBytes(0) && plain[4..8] == IntBytes(o.challenge) && plain[8..16] == sessionKey
      && plain[16..20] == IntBytes(o.start) && plain[20..24] == IntBytes(o.start + lifetime)
      && plain[24..28] == IntBytes(kvno) && plain[28..32] == IntBytes(|ticket|)
      && plain[32..at] == ReplyNames(conf, o) && plain[at..at + |ticket|] == ticket
      && |plain| >= at + |ticket| + |o.text| && plain[at + |ticket|..at + |ticket| + |o.text|] == o.text
  {
    hide IntBytes, ReplyNames, ReplyFront;
    var part := ReplyPart(conf, o, lifetime, kvno, sessionKey, ticket);
    var reply := ReplyBytes(header, c, o.key, part);
    assert reply[36..] == c.enc(o.key, Padded(part));
    FrontOpens(o, lifetime, kvno, sessionKey);
    var pad := Zeros(PadTo(|part|, 8) - |part|);
    PartOpens(ReplyFront(o, lifetime, kvno, sessionKey), IntBytes(|ticket|), ReplyNames(conf, o), ticket, o.text, pad);
  }

  lemma FrontOpens(o: Order, lifetime: int, kvno: int, sessionKey: Bytes)
    requires |sessionKey| == 8
    ensures var f := ReplyFront(o, lifetime, kvno, sessionKey);
      && |f| == 28
      && f[..4] == IntBytes(0) && f[4..8] == IntBytes(o.challenge) && f[8..16] == sessionKey
      && f[16..20] == IntBytes(o.start) && f[20..24] == IntBytes(o.start + lifetime) && f[24..28] == IntBytes(kvno)
  {
    hide IntBytes;
  }

  lemma PartOpens(front: Bytes, size: Bytes, names: Bytes, ticket: Bytes, text: Bytes, pad: Bytes)
    requires |front| == 28 && |size| == 4
    ensures var (p, at) := (front + size + names + ticket + text + pad, 32 + |names|);
      && |p| == at + |ticket| + |text| + |pad|
      && (forall i, j {:trigger p[i..j]} :: 0 <= i <= j <= 28 ==> p[i..j] == front[i..j])
      && p[28..32] == size && p[32..at] == names && p[at..at + |ticket|] == ticket
      && p[at + |ticket|..at + |ticket| + |text|] == text
  {
    Grown(front, size);
    Grown(front + size, names);
    Grown(front + size + names, ticket);
    Grown(front + size + names + ticket, text);
    Grown(front + size + names + ticket + text, pad);
  }

  lemma Grown(q: Bytes, x: Bytes)
    ensures |q + x| == |q| + |x| && (q + x)[|q|..|q| + |x|] == x
    ensures forall i, j {:trigger (q + x)[i..j]} :: 0 <= i <= j <= |q| ==> (q + x)[i..j] == q[i..j]
  {
  }

  // ----- what a reply says

  /** The next `n` strings. */
  function GetNames(b: Bytes, n: nat): Parsed<seq<Bytes>> {
    if n == 0 then Got([], b) else
    match GetStr(b, NAME_SIZE) case Bad => Bad case Got(name, b1) =>
    match GetNames(b1, n - 1) case Bad => Bad case Got(names, rest) =>
    Got([name] + names, rest)
  }

  lemma GotName(name: Bytes, n: nat, names: seq<Bytes>, b: Bytes, rest: Bytes)
    requires Fits(name) && GetNames(b, n) == Got(names, rest)
    ensures GetNames(Str(name) + b, n + 1) == Got([name] + names, rest)
  {
    GotStr(name, NAME_SIZE, b);
  }

  lemma NamesReadBack(conf: Conf, o: Order, rest: Bytes)
    requires Fits(o.cname) && Fits(o.cinst) && Fits(o.sname) && Fits(Shown(conf, o))
    ensures GetNames(ReplyNames(conf, o) + rest, 5)
      == Got([o.cname] + ([o.cinst] + ([[]] + ([o.sname] + ([Shown(conf, o)] + [])))), rest)
  {
    hide GetNames, Str, Shown, Fits;
    var b4 := Str(Shown(conf, o)) + rest;
    var b3 := Str(o.sname) + b4;
    var b2 := Str([]) + b3;
    var b1 := Str(o.cinst) + b2;
    assert ReplyNames(conf, o) + rest == Str(o.cname) + b1;
    NoNames(rest);
    FitsEmpty();
    GotName(Shown(conf, o), 0, [], rest, rest);
    GotName(o.sname, 1, [Shown(conf, o)] + [], b4, rest);
    GotName([], 2, [o.sname] + ([Shown(conf, o)] + []), b3, rest);
    GotName(o.cinst, 3, [[]] + ([o.sname] + ([Shown(conf, o)] + [])), b2, rest);
    GotName(o.cname, 4, [o.cinst] + ([[]] + ([o.sname] + ([Shown(conf, o)] + []))), b1, rest);
  }

  lemma NoNames(b: Bytes)
    ensures GetNames(b, 0) == Got([], b)
  {
  }

  /** What the client finds in the part that only it can read, and the service in the ticket. */
  ghost predicate PlainSays(plain: Bytes, client: Princ, service: Princ, conf: Conf, c: Cipher, o: Order,
                            sessionKey: Bytes)
  {
    && |plain| >= 32
    && var lifetime := Bounded(conf, client, service, o.start, o.end);
    && IntOf(plain[..4]) == 0 && IntOf(plain[4..8]) == U32(o.challenge) && plain[8..16] == sessionKey
    && IntOf(plain[16..20]) == U32(o.start) && IntOf(plain[20..24]) == U32(o.start + lifetime)
    && IntOf(plain[24..28]) == U32(service.kvno)
    && var (size, names) := (IntOf(plain[28..32]), GetNames(plain[32..], 5));
    && var shown := if o.sname == AFS && EqFold(o.sinst, conf.cell) then [] else o.sinst;
    && names.Got? && names.value == [o.cname, o.cinst, [], o.sname, shown]
    && 0 <= size <= |names.rest| - |o.text| && names.rest[size..size + |o.text|] == o.text
    && TicketOf(c.dec(service.key, names.rest[..size]))
       == Opened(Ticket(0, o.cname, o.cinst, [], 0, sessionKey, Lifetimes.LifeByte(lifetime) as byte, U32(o.start),
                        o.sname, shown))
  }

  /** The reply: the header, the number of the answer, the length, and all the rest under the key. */
  ghost predicate ReplySays(reply: Bytes, header: Bytes, db: Database, conf: Conf, c: Cipher, o: Order,
                            sessionKey: Bytes)
    requires (o.cname, o.cinst) in db && (o.sname, o.sinst) in db
  {
    && |reply| >= 36 && reply[..28] == header && IntOf(reply[28..32]) == 0x2bc
    && IntOf(reply[32..36]) == U32(|reply| - 36)
    && PlainSays(c.dec(o.key, reply[36..]), db[(o.cname, o.cinst)], db[(o.sname, o.sinst)], conf, c, o, sessionKey)
  }

  /** The names and the session key are those of tickets that can be read. */
  ghost predicate Legible(o: Order, sessionKey: Bytes) {
    Fits(o.cname) && Fits(o.cinst) && Fits(o.sname) && Fits(o.sinst) && |sessionKey| == 8
  }

  lemma ShownIs(conf: Conf, o: Order)
    ensures Shown(conf, o) == if o.sname == AFS && EqFold(o.sinst, conf.cell) then [] else o.sinst
    ensures Fits(o.sinst) ==> Fits(Shown(conf, o))
  {
  }

  lemma GrantedIs(conf: Conf, client: Princ, service: Princ, o: Order, sessionKey: Bytes)
    requires Legible(o, sessionKey)
    ensures var t := Granted(conf, client, service, o, sessionKey);
      && t == Ticket(0, o.cname, o.cinst, [], 0, sessionKey,
                     Lifetimes.LifeByte(Bounded(conf, client, service, o.start, o.end)) as byte, o.start, o.sname,
                     Shown(conf, o))
      && Writable(t) && |TicketThen(t, [])| <= 200
    ensures U32(0) == 0
  {
    ShownIs(conf, o);
    FitsEmpty();
    TicketLength(Granted(conf, client, service, o, sessionKey));
    hide TicketThen, Bounded, Shown, Lifetimes.LifeByte, EqFold, IntBytes;
  }

  lemma SealedShort(c: Cipher, key: Bytes, t: Ticket)
    requires Invertible(c) && |TicketThen(t, [])| <= 200
    ensures |Sealed(c, key, t)| < 256 && U32(|Sealed(c, key, t)|) == |Sealed(c, key, t)|
  {
    hide TicketThen;
  }

  lemma NamesAt(plain: Bytes, names: Bytes, at: nat, n: nat)
    requires 32 <= at && at + n <= |plain| && plain[32..at] == names
    ensures plain[32..] == names + plain[at..] && plain[at..][..n] == plain[at..at + n]
    ensures forall k :: n <= k <= |plain[at..]| ==> plain[at..][n..k] == plain[at + n..at + k]
  {
  }

  lemma IntsIn(plain: Bytes, a: int, b: int, c: int, d: int, e: int)
    requires |plain| >= 32 && plain[..4] == IntBytes(0) && plain[4..8] == IntBytes(a) && plain[16..20] == IntBytes(b)
    requires plain[20..24] == IntBytes(c) && plain[24..28] == IntBytes(d) && plain[28..32] == IntBytes(e)
    ensures IntOf(plain[..4]) == U32(0) && IntOf(plain[4..8]) == U32(a) && IntOf(plain[16..20]) == U32(b)
    ensures IntOf(plain[20..24]) == U32(c)
    ensures IntOf(plain[24..28]) == U32(d) && IntOf(plain[28..32]) == U32(e)
  {
    hide IntBytes, IntOf, U32;
    IntOfBytes(0);
    IntOfBytes(a);
    IntOfBytes(b);
    IntOfBytes(c);
    IntOfBytes(d);
    IntOfBytes(e);
  }

  lemma PlainMeans(conf: Conf, c: Cipher, client: Princ, service: Princ, o: Order, sessionKey: Bytes, header: Bytes)
    requires Invertible(c) && Legible(o, sessionKey) && |header| == 28
    ensures PlainSays(Padded(PartFor(conf, c, client, service, o, sessionKey)), client, service, conf, c, o, sessionKey)
  {
    hide IntBytes, IntOf, Padded, ReplyNames, ReplyPart, ReplyBytes, Sealed, Granted, TicketThen, TicketOf, Bounded;
    hide Shown, GetNames, U32, Invertible, Lifetimes.LifeByte, Fits, Writable;
    var lifetime := Bounded(conf, client, service, o.start, o.end);
    var t := Granted(conf, client, service, o, sessionKey);
    var ticket := Sealed(c, service.key, t);
    var plain := Padded(PartFor(conf, c, client, service, o, sessionKey));
    var at := 32 + |ReplyNames(conf, o)|;
    ReplyOpens(conf, c, o, lifetime, service.kvno, header, sessionKey, ticket);
    GrantedIs(conf, client, service, o, sessionKey);
    ShownIs(conf, o);
    SealedShort(c, service.key, t);
    SealedOpens(c, service.key, t);
    IntsIn(plain, o.challenge, o.start, o.start + lifetime, service.kvno, |ticket|);
    NamesAt(plain, ReplyNames(conf, o), at, |ticket|);
    NamesReadBack(conf, o, plain[at..]);
  }

  /** Whoever holds the key of a reply, and the service its ticket is for, find in it what was ordered. */
  lemma ReplyMeans(db: Database, conf: Conf, c: Cipher, o: Order, sessionKey: Bytes, header: Bytes)
    requires Invertible(c) && Legible(o, sessionKey) && |header| == 28
    requires (o.cname, o.cinst) in db && (o.sname, o.sinst) in db
    ensures ReplySays(ReplyFor(db, conf, c, o, sessionKey, header), header, db, conf, c, o, sessionKey)
  {
    hide IntBytes, IntOf, Padded, PartFor, U32, Invertible, PlainSays, Legible;
    var client, service := db[(o.cname, o.cinst)], db[(o.sname, o.sinst)];
    PlainMeans(conf, c, client, service, o, sessionKey, header);
    Frame(header, c, o.key, PartFor(conf, c, client, service, o, sessionKey));
  }

  /** A reply goes to a client in standing for a service in standing, and says what was ordered. */
  ghost predicate Replied(reply: Bytes, header: Bytes, db: Database, now: int, conf: Conf, c: Cipher, o: Order,
                          sessionKey: Bytes)
  {
    && InStanding(db, now, o.cname, o.cinst) && InStanding(db, now, o.sname, o.sinst)
    && |db[(o.sname, o.sinst)].key| == 8 && c.usable(db[(o.sname, o.sinst)].key)
    && reply == ReplyFor(db, conf, c, o, sessionKey, header)
    && (Legible(o, sessionKey) ==> ReplySays(reply, header, db, conf, c, o, sessionKey))
  }

  lemma RepliedWith(reply: Bytes, header: Bytes, db: Database, now: int, conf: Conf, c: Cipher, o: Order,
                    sessionKey: Bytes)
    requires Invertible(c) && |header| == 28
    requires InStanding(db, now, o.cname, o.cinst) && InStanding(db, now, o.sname, o.sinst)
    requires |db[(o.sname, o.sinst)].key| == 8 && c.usable(db[(o.sname, o.sinst)].key)
    requires reply == ReplyFor(db, conf, c, o, sessionKey, header)
    ensures Replied(reply, header, db, now, conf, c, o, sessionKey)
  {
    hide ReplyFor, ReplySays, Legible, Invertible;
    if Legible(o, sessionKey) {
      ReplyMeans(db, conf, c, o, sessionKey, header);
    }
  }

  /** What the code of a reply says about the client and the service, the client first. */
  ghost predicate Vetted(rv: int, db: Database, now: int, cname: Bytes, cinst: Bytes, sname: Bytes, sinst: Bytes) {
    && (rv == KANOENT <==>
         Unknown(db, cname, cinst) || (InStanding(db, now, cname, cinst) && Unknown(db, sname, sinst)))
    && (rv == KABADUSER <==>
         Barred(db, now, cname, cinst) || (InStanding(db, now, cname, cinst) && Barred(db, now, sname, sinst)))
    && (rv in {0, KAINTERNALERROR} <==> InStanding(db, now, cname, cinst) && InStanding(db, now, sname, sinst))
  }

  lemma ReplyVetted(db: Database, conf: Conf, c: Cipher, now: int, o: Order, sessionKey: Bytes, maxn: nat)
    ensures Vetted(ReplyCode(db, conf, c, now, o, sessionKey, maxn), db, now, o.cname, o.cinst, o.sname, o.sinst)
  {
    hide CheckPrinc, Unknown, InStanding, PartFor, HasRoom, KeyOk;
    CheckedExactly(db, now, o.cname, o.cinst);
    CheckedExactly(db, now, o.sname, o.sinst);
  }

  lemma Frame(header: Bytes, c: Cipher, key: Bytes, part: Bytes)
    requires Invertible(c) && |header| == 28
    ensures var reply := ReplyBytes(header, c, key, part);
      && |reply| == 36 + |Padded(part)| && reply[..28] == header && IntOf(reply[28..32]) == 0x2bc
      && IntOf(reply[32..36]) == U32(|reply| - 36) && c.dec(key, reply[36..]) == Padded(part)
  {
    hide IntBytes, IntOf;
    var reply := ReplyBytes(header, c, key, part);
    IntOfBytes(0x2bc);
    IntOfBytes(|Padded(part)|);
    assert reply[28..32] == IntBytes(0x2bc) && reply[32..36] == IntBytes(|Padded(part)|);
    assert reply[36..] == c.enc(key, Padded(part));
  }

  method FinishReply(w: Writer, c: Cipher, key: Bytes, ghost header: Bytes, ghost part: Bytes)
    requires Invertible(c) && w.Valid() && !w.failed && w.Clean()
    requires |header| == 28 && w.Written() == header + IntBytes(0x2bc) + IntBytes(0) + part
    modifies w, w.base
    ensures w.Valid() && w.failed == (36 + PadTo(|part|, 8) > w.maxn)
    ensures !w.failed ==> w.Written() == ReplyBytes(header, c, key, part)
  {
    hide IntBytes, Padded;
    ghost var front := header + IntBytes(0x2bc);
    ghost var padded := Padded(part);
    PaddedIs(front + IntBytes(0), part);
    w.Pad(PadTo(w.n - 36, 8) - (w.n - 36));
    if !w.failed {
      Replaced(front, IntBytes(0), IntBytes(|padded|), padded);
      w.Patch(32, w.n - 36);
      HeadAndTail(front + IntBytes(|padded|), padded);
      assert w.base[36..w.n] == w.Written()[36..];
      w.Overwrite(36, c.enc(key, w.base[36..w.n]));
    }
  }

  lemma PaddedIs(w: Bytes, part: Bytes)
    ensures |Padded(part)| == PadTo(|part|, 8)
    ensures w + part + Zeros(PadTo(|part|, 8) - |part|) == w + Padded(part)
  {
  }

  lemma HeadAndTail(p: Bytes, q: Bytes)
    ensures (p + q)[..|p|] == p && (p + q)[|p|..] == q
  {
  }

  method MakeReplyPacket(w: Writer, db: Database, conf: Conf, c: Cipher, now: int, o: Order, sessionKey: Bytes)
    returns (rv: int)
    requires Invertible(c) && w.Valid() && w.n == 0 && !w.failed && w.CleanFrom(32) && w.maxn >= 28
    modifies w, w.base
    ensures w.Valid() && rv == ReplyCode(db, conf, c, now, o, sessionKey, w.maxn)
    ensures Vetted(rv, db, now, o.cname, o.cinst, o.sname, o.sinst)
    ensures rv == 0 ==> Replied(w.Written(), old(w.base[..28]), db, now, conf, c, o, sessionKey)
  {
    hide IntBytes, ReplyPart, Sealed, Bounded, Issued, CheckPrinc, Padded, ReplyBytes, Vetted, InStanding, Replied;
    CheckedExactly(db, now, o.cname, o.cinst);
    CheckedExactly(db, now, o.sname, o.sinst);
    ReplyVetted(db, conf, c, now, o, sessionKey, w.maxn);
    var client := CheckPrinc(db, now, o.cname, o.cinst);
    if client.Refused? {
      return client.code;
    }
    var service := CheckPrinc(db, now, o.sname, o.sinst);
    if service.Refused? {
      return service.code;
    }
    var lifetime := Bounded(conf, client.princ, service.princ, o.start, o.end);
    var t := NewTicket(conf, o, lifetime, sessionKey);
    ghost var header := w.base[..28];
    w.Skip(28);
    w.PutBytes(IntBytes(0x2bc));
    w.PutBytes(IntBytes(0));
    PutPart(w, conf, c, o, lifetime, service.princ, sessionKey, t);
    if w.failed || !KeyOk(c, service.princ) {
      return KAINTERNALERROR;
    }
    FinishReply(w, c, o.key, header, PartFor(conf, c, client.princ, service.princ, o, sessionKey));
    if w.failed {
      return KAINTERNALERROR;
    }
    rv := 0;
    RepliedWith(w.Written(), header, db, now, conf, c, o, sessionKey);
  }

  method NewTicket(conf: Conf, o: Order, lifetime: int, sessionKey: Bytes) returns (t: Ticket)
    ensures t == Issued(conf, o, lifetime, sessionKey)
  {
    var v4life := Lifetimes.ToV4Life(lifetime);
    t := Ticket(0, o.cname, o.cinst, [], 0, sessionKey, (v4life % 256) as byte, o.start, o.sname, Shown(conf, o));
  }

  // ----- the request for a service ticket

  const TICKET_SIZE: nat := 1023
  const TIMES_SIZE: nat := 8
  const GTKT: Bytes := [103, 116, 107, 116]

  /** A string stops at its first 0, whatever its count said. */
  function CStr(s: Bytes): Bytes {
    s[..StrLen(s)]
  }

  datatype Request = BadRequest | Request(cell: Bytes, ticket: Bytes, rname: Bytes, rinst: Bytes, times: Bytes)

  function RequestOf(conf: Conf, b: Bytes): Request {
    if |b| < 32 then BadRequest else
    match GetInt(b[32..]) case Bad => BadRequest case Got(kvno, b1) =>
    match GetPStr(b1, NAME_SIZE) case Bad => BadRequest case Got(cell, b2) =>
    match GetPStr(b2, TICKET_SIZE) case Bad => BadRequest case Got(ticket, b3) =>
    match GetPStr(b3, NAME_SIZE) case Bad => BadRequest case Got(rname, b4) =>
    match GetPStr(b4, NAME_SIZE) case Bad => BadRequest case Got(rinst, b5) =>
    match GetPStr(b5, TIMES_SIZE) case Bad => BadRequest case Got(times, b6) =>
    if |times| != TIMES_SIZE || |b6| < 8 then BadRequest
    else Request(if CStr(cell) == [] then conf.cell else CStr(cell), ticket, CStr(rname), CStr(rinst), times)
  }

  method ReadRequest(conf: Conf, req: array<byte>, len: nat) returns (r: Request)
    requires len <= req.Length
    ensures r == RequestOf(conf, req[..len])
  {
    hide GetInt, GetPStr, CStr;
    var p := new Reader(req, len);
    assert p.Rest() == req[..len];
    hide Reader.Rest;
    var ok, kvno, cell, ticket, rname, rinst, times;
    ok := p.Advance(32);
    if !ok { return BadRequest; }
    assert p.Rest() == req[..len][32..];
    ok, kvno := p.ReadInt();
    if !ok { return BadRequest; }
    ok, cell := p.ReadPStr(NAME_SIZE);
    if !ok { return BadRequest; }
    ok, ticket := p.ReadPStr(TICKET_SIZE);
    if !ok { return BadRequest; }
    ok, rname := p.ReadPStr(NAME_SIZE);
    if !ok { return BadRequest; }
    ok, rinst := p.ReadPStr(NAME_SIZE);
    if !ok { return BadRequest; }
    ok, times := p.ReadPStr(TIMES_SIZE);
    if !ok || |times| != TIMES_SIZE { return BadRequest; }
    ok := p.Advance(8);
    if !ok { return BadRequest; }
    r := Request(if CStr(cell) == [] then conf.cell else CStr(cell), ticket, CStr(rname), CStr(rinst), times);
  }

  /** A request that is put together as the protocol says is read as meant, exactly if its times are eight bytes
      and something follows them; an empty cell is the local one. */
  lemma RequestReadsBack(conf: Conf, header: Bytes, kvno: int, cell: Bytes, ticket: Bytes, rname: Bytes, rinst: Bytes,
                         times: Bytes, rest: Bytes)
    requires |header| == 32 && Fits(cell) && |ticket| <= TICKET_SIZE && Fits(rname) && Fits(rinst)
    requires |times| <= TIMES_SIZE
    ensures RequestOf(conf, header
                            + (IntBytes(kvno) + (PStr(cell) + (PStr(ticket) + (PStr(rname) + (PStr(rinst)
                            + (PStr(times) + rest)))))))
              == if |times| == 8 && |rest| >= 8
                 then Request(if cell == [] then conf.cell else cell, ticket, rname, rinst, times) else BadRequest
  {
    hide GetInt, GetPStr, CStr, IntBytes, PStr;
    var b5 := PStr(times) + rest;
    var b4 := PStr(rinst) + b5;
    var b3 := PStr(rname) + b4;
    var b2 := PStr(ticket) + b3;
    var b1 := PStr(cell) + b2;
    var b := IntBytes(kvno) + b1;
    assert (header + b)[32..] == b;
    GotInt(kvno, b1);
    GotPStr(cell, NAME_SIZE, b2);
    GotPStr(ticket, TICKET_SIZE, b3);
    GotPStr(rname, NAME_SIZE, b4);
    GotPStr(rinst, NAME_SIZE, b5);
    GotPStr(times, TIMES_SIZE, rest);
    WholeString(cell);
    WholeString(rname);
    WholeString(rinst);
  }

  method ReadTicketFields(p: Reader) returns (t: Opened)
    requires p.Valid()
    modifies p
    ensures t == TicketOf(old(p.Rest()))
  {
    hide GetInt, GetStr, GetBytes, GetChar;
    var ok, flags, cname, cinst, realm, ipaddr, sessionKey, life, start, sname, sinst;
    ok, flags := p.ReadChar();
    if !ok { return Malformed; }
    ok, cname := p.ReadStr(NAME_SIZE);
    if !ok { return Malformed; }
    ok, cinst := p.ReadStr(NAME_SIZE);
    if !ok { return Malformed; }
    ok, realm := p.ReadStr(NAME_SIZE);
    if !ok { return Malformed; }
    ok, ipaddr := p.ReadInt();
    if !ok { return Malformed; }
    ok, sessionKey := p.ReadBytes(8);
    if !ok { return Malformed; }
    ok, life := p.ReadChar();
    if !ok { return Malformed; }
    ok, start := p.ReadInt();
    if !ok { return Malformed; }
    ok, sname := p.ReadStr(NAME_SIZE);
    if !ok { return Malformed; }
    ok, sinst := p.ReadStr(NAME_SIZE);
    if !ok { return Malformed; }
    t := Opened(Ticket(flags, cname, cinst, realm, ipaddr, sessionKey, life, start, sname, sinst));
  }

  /** The ticket is decrypted in place, then read. */
  method ReadTicket(buf: array<byte>, c: Cipher, key: Bytes, len: nat) returns (t: Opened)
    requires Invertible(c) && len <= buf.Length
    modifies buf
    ensures t == TicketOf(c.dec(key, old(buf[..len])))
  {
    hide TicketOf;
    var plain := c.dec(key, buf[..len]);
    forall i | 0 <= i < len {
      buf[i] := plain[i];
    }
    var p := new Reader(buf, len);
    assert p.Rest() == plain;
    t := ReadTicketFields(p);
  }

  // ----- the request for a ticket-granting ticket

  const GTGS: Bytes := [103, 84, 71, 83]
  const TGST: Bytes := [116, 103, 115, 84]

  datatype Judgement = Deny(code: int) | Grant(order: Order)

  /** What follows the names: the times asked for, and a sealed challenge that only the client's key opens. */
  function SealedTail(conf: Conf, c: Cipher, client: Princ, name: Bytes, inst: Bytes, start: int, end: int,
                      b: Bytes): Judgement
    requires Invertible(c)
  {
    match GetBytes(b, 8) case Bad => Deny(KABADREQUEST) case Got(sealed, rest) =>
    var plain := c.dec(client.key, sealed);
    assert |plain| == 8;
    if plain[4..] != GTGS || |rest| < 8 then Deny(KABADREQUEST)
    else Grant(Order(S32(IntOf(plain[..4]) + 1), S32(start), S32(end), name, inst, KRBTGT, conf.cell, client.key, TGST))
  }

  function AuthTail(conf: Conf, c: Cipher, client: Princ, name: Bytes, inst: Bytes, b: Bytes): Judgement
    requires Invertible(c)
  {
    match GetInt(b) case Bad => Deny(KABADREQUEST) case Got(start, b1) =>
    match GetInt(b1) case Bad => Deny(KABADREQUEST) case Got(end, b2) =>
    match GetInt(b2) case Bad => Deny(KABADREQUEST) case Got(len, b3) =>
    if len != 8 then Deny(KABADREQUEST)
    else if !KeyOk(c, client) then Deny(KAINTERNALERROR)
    else SealedTail(conf, c, client, name, inst, start, end, b3)
  }

  function AuthOutcome(db: Database, conf: Conf, c: Cipher, now: int, b: Bytes): Judgement
    requires Invertible(c)
  {
    if |b| < 32 then Deny(KABADREQUEST) else
    match GetPStr(b[32..], NAME_SIZE) case Bad => Deny(KABADREQUEST) case Got(name, b1) =>
    match GetPStr(b1, NAME_SIZE) case Bad => Deny(KABADREQUEST) case Got(inst, b2) =>
    match CheckPrinc(db, now, CStr(name), CStr(inst))
    case Refused(code) => Deny(code)
    case Found(client) => AuthTail(conf, c, client, CStr(name), CStr(inst), b2)
  }

  method ReadSealedTail(p: Reader, conf: Conf, c: Cipher, client: Princ, name: Bytes, inst: Bytes, start: int, end: int)
    returns (j: Judgement)
    requires Invertible(c) && p.Valid()
    modifies p
    ensures j == SealedTail(conf, c, client, name, inst, start, end, old(p.Rest()))
  {
    hide IntOf, S32;
    var ok, sealed;
    ok, sealed := p.ReadBytes(8);
    if !ok { return Deny(KABADREQUEST); }
    var plain := c.dec(client.key, sealed);
    assert |plain| == 8;
    if plain[4..] != GTGS { return Deny(KABADREQUEST); }
    ok := p.Advance(8);
    if !ok { return Deny(KABADREQUEST); }
    var challenge := S32(IntOf(plain[..4]) + 1);
    j := Grant(Order(challenge, S32(start), S32(end), name, inst, KRBTGT, conf.cell, client.key, TGST));
  }

  method ReadAuthTail(p: Reader, conf: Conf, c: Cipher, client: Princ, name: Bytes, inst: Bytes) returns (j: Judgement)
    requires Invertible(c) && p.Valid()
    modifies p
    ensures j == AuthTail(conf, c, client, name, inst, old(p.Rest()))
  {
    hide GetInt, SealedTail, KeyOk;
    var ok, start, end, len;
    ok, start := p.ReadInt();
    if !ok { return Deny(KABADREQUEST); }
    ok, end := p.ReadInt();
    if !ok { return Deny(KABADREQUEST); }
    ok, len := p.ReadInt();
    if !ok || len != 8 { return Deny(KABADREQUEST); }
    if !KeyOk(c, client) { return Deny(KAINTERNALERROR); }
    j := ReadSealedTail(p, conf, c, client, name, inst, start, end);
  }

  method DecideAuth(db: Database, conf: Conf, c: Cipher, now: int, req: array<byte>, len: nat) returns (j: Judgement)
    requires Invertible(c) && len <= req.Length
    ensures j == AuthOutcome(db, conf, c, now, req[..len])
  {
    hide GetInt, GetPStr, CStr, AuthTail, CheckPrinc;
    var p := new Reader(req, len);
    var ok, name, inst;
    ok := p.Advance(32);
    if !ok { return Deny(KABADREQUEST); }
    assert p.Rest() == req[..len][32..];
    ok, name := p.ReadPStr(NAME_SIZE);
    if !ok { return Deny(KABADREQUEST); }
    ok, inst := p.ReadPStr(NAME_SIZE);
    if !ok { return Deny(KABADREQUEST); }
    var client := CheckPrinc(db, now, CStr(name), CStr(inst));
    if client.Refused? { return Deny(client.code); }
    j := ReadAuthTail(p, conf, c, client.princ, CStr(name), CStr(inst));
  }

  lemma AuthDenialsHaveCodes(db: Database, conf: Conf, c: Cipher, now: int, b: Bytes)
    requires Invertible(c)
    ensures AuthOutcome(db, conf, c, now, b).Deny? ==> AuthOutcome(db, conf, c, now, b).code != 0
  {
    hide GetInt, GetPStr, GetBytes, CStr, CheckPrinc, IntOf;
  }

  /** The code that Authenticate returns. */
  function AuthCode(db: Database, conf: Conf, c: Cipher, now: int, b: Bytes, sessionKey: Bytes, maxn: nat): int
    requires Invertible(c)
  {
    match AuthOutcome(db, conf, c, now, b)
    case Deny(code) => code
    case Grant(o) => ReplyCode(db, conf, c, now, o, sessionKey, maxn)
  }

  /** Only tickets for the cell's own ticket-granting service are ordered, under the key of a client in
      standing. */
  lemma AuthOrders(db: Database, conf: Conf, c: Cipher, now: int, b: Bytes)
    requires Invertible(c)
    ensures AuthOutcome(db, conf, c, now, b).Grant? ==> (var o := AuthOutcome(db, conf, c, now, b).order;
      && InStanding(db, now, o.cname, o.cinst) && o.sname == KRBTGT && o.sinst == conf.cell
      && o.key == db[(o.cname, o.cinst)].key)
  {
    hide GetInt, GetPStr, GetBytes, CStr, CheckPrinc, IntOf, KeyOk;
    if |b| >= 32 && GetPStr(b[32..], NAME_SIZE).Got? {
      var name := GetPStr(b[32..], NAME_SIZE);
      if GetPStr(name.rest, NAME_SIZE).Got? {
        CheckedExactly(db, now, CStr(name.value), CStr(GetPStr(name.rest, NAME_SIZE).value));
      }
    }
  }

  method Authenticate(w: Writer, db: Database, conf: Conf, c: Cipher, now: int, req: array<byte>, len: nat,
                      sessionKey: Bytes)
    returns (rv: int)
    requires Invertible(c) && w.Valid() && w.n == 0 && !w.failed && w.CleanFrom(32) && w.maxn >= 28
    requires len <= req.Length && req != w.base
    modifies w, w.base
    ensures w.Valid()
    ensures rv == AuthCode(db, conf, c, now, old(req[..len]), sessionKey, w.maxn)
    ensures rv == 0 ==> AuthOutcome(db, conf, c, now, old(req[..len])).Grant?
    ensures rv == 0 ==> (var o := AuthOutcome(db, conf, c, now, old(req[..len])).order;
      && Replied(w.Written(), old(w.base[..28]), db, now, conf, c, o, sessionKey)
      && o.sname == KRBTGT && o.sinst == conf.cell && o.key == db[(o.cname, o.cinst)].key)
  {
    hide AuthOutcome, ReplyFor, ReplyCode, Vetted, ReplySays;
    AuthOrders(db, conf, c, now, req[..len]);
    AuthDenialsHaveCodes(db, conf, c, now, req[..len]);
    var j := DecideAuth(db, conf, c, now, req, len);
    if j.Deny? { return j.code; }
    rv := MakeReplyPacket(w, db, conf, c, now, j.order, sessionKey);
  }

  /** A client's proper request, sealed with its own key, is granted, and what is ordered for it is a
      ticket-granting ticket for its names with the challenge raised by one. */
  lemma ProperRequestGranted(db: Database, conf: Conf, c: Cipher, now: int, header: Bytes, name: Bytes, inst: Bytes,
                             start: int, end: int, challenge: int, rest: Bytes)
    requires Invertible(c) && |header| == 32 && Fits(name) && Fits(inst) && |rest| >= 8
    requires CheckPrinc(db, now, name, inst).Found? && KeyOk(c, CheckPrinc(db, now, name, inst).princ)
    ensures var client := CheckPrinc(db, now, name, inst).princ;
      var b := header + (PStr(name) + (PStr(inst) + (IntBytes(start) + (IntBytes(end)
        + (IntBytes(8) + (c.enc(client.key, IntBytes(challenge) + GTGS) + rest))))));
      AuthOutcome(db, conf, c, now, b)
        == Grant(Order(S32(challenge + 1), S32(start), S32(end), name, inst, KRBTGT, conf.cell, client.key, TGST))
  {
    hide GetInt, GetPStr, GetBytes, CStr, CheckPrinc, IntOf, IntBytes, PStr, KeyOk, S32;
    var client := CheckPrinc(db, now, name, inst).princ;
    var plain := IntBytes(challenge) + GTGS;
    var sealed := c.enc(client.key, plain);
    var b5 := IntBytes(8) + (sealed + rest);
    var b4 := IntBytes(end) + b5;
    var b3 := IntBytes(start) + b4;
    var b2 := PStr(inst) + b3;
    var b1 := PStr(name) + b2;
    assert (header + b1)[32..] == b1;
    GotPStr(name, NAME_SIZE, b2);
    GotPStr(inst, NAME_SIZE, b3);
    WholeString(name);
    WholeString(inst);
    GotInt(start, b4);
    GotInt(end, b5);
    GotInt(8, sealed + rest);
    assert |sealed| == 8;
    GotBytes(sealed, rest);
    assert c.dec(client.key, sealed) == plain;
    assert plain[4..] == GTGS && plain[..4] == IntBytes(challenge);
    IntOfBytes(challenge);
    Signs(start);
    Signs(end);
    SignsNext(challenge);
  }

  lemma WholeString(s: Bytes)
    requires 0 !in s
    ensures CStr(s) == s
  {
    assert StrLen(s) == |s|;
  }

  /** What a counted string is taken for ends at its first 0. */
  lemma StopsAtZero(s: Bytes, rest: Bytes)
    requires 0 !in s
    ensures CStr(s + [0] + rest) == s
  {
    StrLenOf(s, rest);
    assert s + [0] + rest == Str(s) + rest;
    assert (Str(s) + rest)[..|s|] == s;
  }

  lemma Signs(x: int)
    ensures S32(U32(x)) == S32(x)
  {
  }

  lemma SignsNext(x: int)
    ensures S32(U32(x) + 1) == S32(x + 1)
  {
  }

  // ----- granting it

  /** The services that tickets are issued for. */
  predicate Served(rname: Bytes, rinst: Bytes) {
    (rname == AFS && rinst == []) || (rname == EMT && rinst == ADMIN) || (rname == ADM && rinst == ADMIN)
  }

  function LowerAll(s: Bytes): Bytes {
    seq(|s|, i requires 0 <= i < |s| => Lower(s[i]))
  }

  /** The instance under which the database knows the service. */
  function KnownAs(conf: Conf, rname: Bytes, rinst: Bytes): Bytes {
    if rname == AFS && rinst == [] && conf.realm != conf.cell then LowerAll(conf.cell) else rinst
  }

  /** When the reader of a ticket takes it to end. */
  function EndOf(t: Ticket, beyond: int): int {
    U32(t.start + Lifetimes.Seconds(t.life as nat, beyond))
  }

  function Judge(conf: Conf, now: int, beyond: int, t: Ticket, cell: Bytes, rname: Bytes, rinst: Bytes, start: int,
                 end: int): (j: Judgement)
    ensures j.Deny? ==> j.code != 0
  {
    if t.flags != 0 || t.ipaddr != 0 then Deny(KABADTICKET)
    else if t.sname != KRBTGT then Deny(KABADTICKET)
    else if !EqFold(t.sinst, conf.cell) then Deny(KABADTICKET)
    else if !EqFold(cell, conf.cell) then Deny(KABADTICKET)
    else if t.realm != [] && !EqFold(t.realm, cell) then Deny(KABADTICKET)
    else if !Served(rname, rinst) then Deny(KABADSERVER)
    else if U32(now) < U32(t.start - CLOCK_SKEW) then Deny(KABADTICKET)
    else if EndOf(t, beyond) < U32(now) then Deny(KABADTICKET)
    else if S32(now - start) > CLOCK_SKEW || -S32(now - start) > CLOCK_SKEW then Deny(KACLOCKSKEW)
    else
      var lifetime := Min(U32(EndOf(t, beyond) - now), U32(end - start));
      Grant(Order(0, S32(start), S32(now + lifetime), t.cname, t.cinst, rname, KnownAs(conf, rname, rinst), t.key,
                  GTKT))
  }

  /** The outcome of a request up to the reply. */
  function Outcome(db: Database, conf: Conf, c: Cipher, now: int, beyond: int, b: Bytes): Judgement
    requires Invertible(c)
  {
    match RequestOf(conf, b)
    case BadRequest => Deny(KABADREQUEST)
    case Request(cell, ticket, rname, rinst, times) =>
      match CheckPrinc(db, now, KRBTGT, cell)
      case Refused(code) => Deny(code)
      case Found(tgs) =>
        if !KeyOk(c, tgs) then Deny(KAINTERNALERROR) else
        match TicketOf(c.dec(tgs.key, ticket))
        case Malformed => Deny(KABADREQUEST)
        case Opened(t) =>
          if !c.usable(t.key) then Deny(KABADTICKET) else
          var open := c.ecb(t.key, times);
          if |open| != TIMES_SIZE then Deny(KABADREQUEST)
          else Judge(conf, now, beyond, t, cell, rname, rinst, IntOf(open[..4]), IntOf(open[4..]))
  }

  method Validate(conf: Conf, now: int, beyond: int, t: Ticket, cell: Bytes, rname: Bytes, rinst: Bytes, start: int,
                  end: int)
    returns (j: Judgement)
    ensures j == Judge(conf, now, beyond, t, cell, rname, rinst, start, end)
  {
    if t.flags != 0 || t.ipaddr != 0 { return Deny(KABADTICKET); }
    if t.sname != KRBTGT { return Deny(KABADTICKET); }
    if !EqFold(t.sinst, conf.cell) { return Deny(KABADTICKET); }
    if !EqFold(cell, conf.cell) { return Deny(KABADTICKET); }
    if t.realm != [] && !EqFold(t.realm, cell) { return Deny(KABADTICKET); }
    if !Served(rname, rinst) { return Deny(KABADSERVER); }
    var instance := rinst;
    if rname == AFS && rinst == [] && conf.realm != conf.cell && EqFold(cell, conf.cell) {
      instance := LowerAll(conf.cell);
    }
    if U32(now) < U32(t.start - CLOCK_SKEW) { return Deny(KABADTICKET); }
    var tgtEnd;
    if t.life < 128 {
      tgtEnd := U32(t.start + t.life as int * 300);
    } else {
      tgtEnd := U32(t.start + Lifetimes.Seconds(t.life as nat, beyond));
    }
    if tgtEnd < U32(now) { return Deny(KABADTICKET); }
    var skew := S32(now - start);
    if (if skew < 0 then -skew else skew) > CLOCK_SKEW { return Deny(KACLOCKSKEW); }
    var lifetime := U32(tgtEnd - now);
    lifetime := Min(lifetime, U32(end - start));
    j := Grant(Order(0, S32(start), S32(now + lifetime), t.cname, t.cinst, rname, instance, t.key, GTKT));
  }

  lemma DenialsHaveCodes(db: Database, conf: Conf, c: Cipher, now: int, beyond: int, b: Bytes)
    requires Invertible(c)
    ensures Outcome(db, conf, c, now, beyond, b).Deny? ==> Outcome(db, conf, c, now, beyond, b).code != 0
  {
    hide RequestOf, TicketOf, Judge, IntOf, CheckPrinc;
  }

  method Decide(db: Database, conf: Conf, c: Cipher, now: int, beyond: int, req: array<byte>, len: nat)
    returns (j: Judgement)
    requires Invertible(c) && len <= req.Length
    ensures j == Outcome(db, conf, c, now, beyond, req[..len])
  {
    hide RequestOf, TicketOf, Judge, IntOf, CheckPrinc;
    var r := ReadRequest(conf, req, len);
    if r.BadRequest? { return Deny(KABADREQUEST); }
    var tgs := CheckPrinc(db, now, KRBTGT, r.cell);
    if tgs.Refused? { return Deny(tgs.code); }
    if !KeyOk(c, tgs.princ) { return Deny(KAINTERNALERROR); }
    var buf := new byte[|r.ticket|](i requires 0 <= i < |r.ticket| => r.ticket[i]);
    assert buf[..|r.ticket|] == r.ticket;
    var t := ReadTicket(buf, c, tgs.princ.key, |r.ticket|);
    if t.Malformed? { return Deny(KABADREQUEST); }
    if !c.usable(t.ticket.key) { return Deny(KABADTICKET); }
    var open := c.ecb(t.ticket.key, r.times);
    if |open| != TIMES_SIZE { return Deny(KABADREQUEST); }
    j := Validate(conf, now, beyond, t.ticket, r.cell, r.rname, r.rinst, IntOf(open[..4]), IntOf(open[4..]));
  }

  /** The code that GetTicket returns. */
  function TicketCode(db: Database, conf: Conf, c: Cipher, now: int, beyond: int, b: Bytes, sessionKey: Bytes,
                      maxn: nat): int
    requires Invertible(c)
  {
    match Outcome(db, conf, c, now, beyond, b)
    case Deny(code) => code
    case Grant(o) => ReplyCode(db, conf, c, now, o, sessionKey, maxn)
  }

  /** What is ordered is for the client of the embedded ticket, under its session key, and for the service
      asked for; the afs service of a cell whose realm has another name goes by the cell's name there. */
  ghost predicate Orders(db: Database, conf: Conf, c: Cipher, r: Request, o: Order)
    requires r.Request?
  {
    && (KRBTGT, r.cell) in db && |db[(KRBTGT, r.cell)].key| == 8 && c.usable(db[(KRBTGT, r.cell)].key)
    && var t := TicketOf(c.dec(db[(KRBTGT, r.cell)].key, r.ticket));
    && t.Opened? && c.usable(t.ticket.key)
    && o.cname == t.ticket.cname && o.cinst == t.ticket.cinst && o.key == t.ticket.key
    && o.sname == r.rname && o.challenge == 0 && o.text == GTKT
    && o.sinst == (if r.rname == AFS && r.rinst == [] && conf.realm != conf.cell then LowerAll(conf.cell) else r.rinst)
  }

  lemma TicketOrders(db: Database, conf: Conf, c: Cipher, now: int, beyond: int, b: Bytes)
    requires Invertible(c)
    ensures Outcome(db, conf, c, now, beyond, b).Grant? ==>
      var r := RequestOf(conf, b);
      && r.Request? && InStanding(db, now, KRBTGT, r.cell)
      && Orders(db, conf, c, r, Outcome(db, conf, c, now, beyond, b).order)
  {
    hide RequestOf, TicketOf, IntOf, CheckPrinc, EqFold, Served, LowerAll, EndOf, Min;
    if RequestOf(conf, b).Request? {
      CheckedExactly(db, now, KRBTGT, RequestOf(conf, b).cell);
    }
  }

  method GetTicket(w: Writer, db: Database, conf: Conf, c: Cipher, now: int, beyond: int, req: array<byte>, len: nat,
                   sessionKey: Bytes)
    returns (rv: int)
    requires Invertible(c) && w.Valid() && w.n == 0 && !w.failed && w.CleanFrom(32) && w.maxn >= 28
    requires len <= req.Length && req != w.base
    modifies w, w.base
    ensures w.Valid()
    ensures rv == TicketCode(db, conf, c, now, beyond, old(req[..len]), sessionKey, w.maxn)
    ensures rv == 0 ==> Outcome(db, conf, c, now, beyond, old(req[..len])).Grant?
    ensures rv == 0 ==> (var (r, o) := (RequestOf(conf, old(req[..len])),
                                        Outcome(db, conf, c, now, beyond, old(req[..len])).order);
      && Replied(w.Written(), old(w.base[..28]), db, now, conf, c, o, sessionKey)
      && r.Request? && InStanding(db, now, KRBTGT, r.cell) && Orders(db, conf, c, r, o))
  {
    hide Outcome, ReplyFor, ReplyCode, Vetted, ReplySays, InStanding, Orders, RequestOf;
    TicketOrders(db, conf, c, now, beyond, req[..len]);
    DenialsHaveCodes(db, conf, c, now, beyond, req[..len]);
    var j := Decide(db, conf, c, now, beyond, req, len);
    if j.Deny? { return j.code; }
    rv := MakeReplyPacket(w, db, conf, c, now, j.order, sessionKey);
  }

  // ----- what is issued is accepted, and what is derived does not last longer

  /** Everything but time speaks for the request. */
  ghost predicate InOrder(conf: Conf, t: Ticket, cell: Bytes, rname: Bytes, rinst: Bytes) {
    && t.flags == 0 && t.ipaddr == 0 && t.realm == [] && t.sname == KRBTGT
    && EqFold(t.sinst, conf.cell) && EqFold(cell, conf.cell) && Served(rname, rinst)
  }

  /** The comparisons with the skew, in the arithmetic of the clock. */
  lemma Skewed(now: int, start: int)
    requires 0 <= now < TWO_TO_THE_31
    ensures U32(now) == now
    ensures U32(now - CLOCK_SKEW) == if now >= CLOCK_SKEW then now - CLOCK_SKEW else now - CLOCK_SKEW + TWO_TO_THE_32
    ensures now - CLOCK_SKEW <= start <= now + CLOCK_SKEW ==> S32(now - start) == now - start
  {
  }

  /** A ticket in order is accepted for a prompt request exactly from its start, less the skew, to its end;
      one that starts within the skew of the clock's origin never is, because the comparison wraps around. */
  lemma AcceptedExactly(conf: Conf, now: int, beyond: int, t: Ticket, cell: Bytes, rname: Bytes, rinst: Bytes,
                        start: int, end: int)
    requires InOrder(conf, t, cell, rname, rinst)
    requires 0 <= now < TWO_TO_THE_31 && now - CLOCK_SKEW <= start <= now + CLOCK_SKEW
    requires 0 <= t.start < TWO_TO_THE_31 && 0 <= t.start + Lifetimes.Seconds(t.life as nat, beyond) < TWO_TO_THE_31
    ensures Judge(conf, now, beyond, t, cell, rname, rinst, start, end).Grant? <==>
              CLOCK_SKEW <= t.start && t.start - CLOCK_SKEW <= now <= t.start + Lifetimes.Seconds(t.life as nat, beyond)
  {
    Skewed(now, start);
    Skewed(t.start, start);
    InClock(t.start + Lifetimes.Seconds(t.life as nat, beyond));
    hide Lifetimes.Seconds, U32, S32, Min, EqFold, Served;
  }

  lemma InClock(now: int)
    requires 0 <= now < TWO_TO_THE_31
    ensures U32(now) == now
  {
  }

  lemma WithinTheClock(now: int, last: int, start: int, end: int)
    requires 0 <= now <= last < TWO_TO_THE_31 && 0 <= start < TWO_TO_THE_31
    ensures U32(now) == now && S32(start) == start
    ensures now <= S32(now + Min(U32(last - now), U32(end - start))) <= last
  {
  }

  /** What a granted request orders, within the range of the clock. */
  lemma OrderedTimes(conf: Conf, now: int, beyond: int, t: Ticket, cell: Bytes, rname: Bytes, rinst: Bytes, start: int,
                     end: int)
    requires Judge(conf, now, beyond, t, cell, rname, rinst, start, end).Grant?
    requires 0 <= now < TWO_TO_THE_31 && 0 <= start < TWO_TO_THE_31 && EndOf(t, beyond) < TWO_TO_THE_31
    ensures var o := Judge(conf, now, beyond, t, cell, rname, rinst, start, end).order;
      && o.start == start && now <= o.end <= EndOf(t, beyond)
      && o.cname == t.cname && o.cinst == t.cinst && o.key == t.key
  {
    hide EndOf, U32, S32, Min;
    InClock(now);
    WithinTheClock(now, EndOf(t, beyond), start, end);
  }

  /** The times in a derived ticket's reply outlive neither the ticket it was derived from nor any limit. */
  lemma DerivedNeverOutlives(conf: Conf, now: int, beyond: int, t: Ticket, cell: Bytes, rname: Bytes, rinst: Bytes,
                             start: int, end: int, client: Princ, service: Princ)
    requires Judge(conf, now, beyond, t, cell, rname, rinst, start, end).Grant?
    requires 0 <= now < TWO_TO_THE_31 && 0 <= start < TWO_TO_THE_31 && EndOf(t, beyond) < TWO_TO_THE_31
    ensures var o := Judge(conf, now, beyond, t, cell, rname, rinst, start, end).order;
      var lifetime := Bounded(conf, client, service, o.start, o.end);
      && o.start + lifetime <= EndOf(t, beyond)
      && lifetime <= client.maxLife && lifetime <= service.maxLife && lifetime <= conf.maxLife
  {
    hide Judge, EndOf;
    OrderedTimes(conf, now, beyond, t, cell, rname, rinst, start, end);
  }

  /** The derived ticket itself is read back as ending after its parent exactly when its lifetime, which
      ends in time, is read back as too long. */
  lemma DerivedTicketOutlivesExactly(conf: Conf, now: int, beyond: int, t: Ticket, cell: Bytes, rname: Bytes,
                                     rinst: Bytes, start: int, end: int, client: Princ, service: Princ)
    requires Judge(conf, now, beyond, t, cell, rname, rinst, start, end).Grant?
    requires 0 <= now < TWO_TO_THE_31 && 0 <= start < TWO_TO_THE_31 && EndOf(t, beyond) < TWO_TO_THE_31
    ensures var o := Judge(conf, now, beyond, t, cell, rname, rinst, start, end).order;
      var lifetime := Bounded(conf, client, service, o.start, o.end);
      var last := o.start + Lifetimes.Seconds(Lifetimes.LifeByte(lifetime), beyond);
      last > EndOf(t, beyond) <==> Lifetimes.ReadTooLong(lifetime, EndOf(t, beyond) - o.start, beyond)
  {
    hide Judge, Bounded, EndOf, Lifetimes.Seconds, Lifetimes.LifeByte, Lifetimes.ReadTooLong;
    var o := Judge(conf, now, beyond, t, cell, rname, rinst, start, end).order;
    DerivedNeverOutlives(conf, now, beyond, t, cell, rname, rinst, start, end, client, service);
    Lifetimes.OutlastsExactly(Bounded(conf, client, service, o.start, o.end), EndOf(t, beyond) - o.start, beyond);
  }

  /** The least of the three maximum lifetimes. */
  function Maximum(conf: Conf, client: Princ, service: Princ): int {
    Min(Min(client.maxLife, service.maxLife), conf.maxLife)
  }

  /** Whatever was ordered, the ticket outlasts the least maximum exactly when its lifetime is read back as
      too long. */
  lemma OrderExceedsExactly(conf: Conf, client: Princ, service: Princ, o: Order, sessionKey: Bytes, beyond: int)
    ensures var t := Granted(conf, client, service, o, sessionKey);
      var (lifetime, limit) := (Bounded(conf, client, service, o.start, o.end), Maximum(conf, client, service));
      Lifetimes.Seconds(t.life as nat, beyond) > limit <==> Lifetimes.ReadTooLong(lifetime, limit, beyond)
  {
    hide S32, Lifetimes.Seconds, Lifetimes.LifeByte, Lifetimes.ReadTooLong;
    Lifetimes.OutlastsExactly(Bounded(conf, client, service, o.start, o.end), Maximum(conf, client, service), beyond);
  }

  /** A ticket derived from another one is read back as lasting longer than a maximum lifetime allows
      exactly when its bounded lifetime is read back as too long, whatever the times. */
  lemma DerivedExceedsExactly(db: Database, conf: Conf, c: Cipher, now: int, beyond: int, b: Bytes, sessionKey: Bytes,
                              client: Princ, service: Princ)
    requires Invertible(c) && Outcome(db, conf, c, now, beyond, b).Grant?
    requires var o := Outcome(db, conf, c, now, beyond, b).order;
      CheckPrinc(db, now, o.cname, o.cinst) == Found(client) && CheckPrinc(db, now, o.sname, o.sinst) == Found(service)
    ensures var o := Outcome(db, conf, c, now, beyond, b).order;
      var t := Granted(conf, client, service, o, sessionKey);
      var (lifetime, limit) := (Bounded(conf, client, service, o.start, o.end), Maximum(conf, client, service));
      Lifetimes.Seconds(t.life as nat, beyond) > limit <==> Lifetimes.ReadTooLong(lifetime, limit, beyond)
  {
    hide *;
    OrderExceedsExactly(conf, client, service, Outcome(db, conf, c, now, beyond, b).order, sessionKey, beyond);
  }

  /** A ticket that a client asks for with its key is read back as lasting longer than a maximum lifetime
      allows exactly when its bounded lifetime is read back as too long. */
  lemma IssuedExceedsExactly(db: Database, conf: Conf, c: Cipher, now: int, beyond: int, b: Bytes, sessionKey: Bytes,
                             client: Princ, service: Princ)
    requires Invertible(c) && AuthOutcome(db, conf, c, now, b).Grant?
    requires var o := AuthOutcome(db, conf, c, now, b).order;
      CheckPrinc(db, now, o.cname, o.cinst) == Found(client) && CheckPrinc(db, now, o.sname, o.sinst) == Found(service)
    ensures var o := AuthOutcome(db, conf, c, now, b).order;
      var t := Granted(conf, client, service, o, sessionKey);
      var (lifetime, limit) := (Bounded(conf, client, service, o.start, o.end), Maximum(conf, client, service));
      Lifetimes.Seconds(t.life as nat, beyond) > limit <==> Lifetimes.ReadTooLong(lifetime, limit, beyond)
  {
    hide *;
    OrderExceedsExactly(conf, client, service, AuthOutcome(db, conf, c, now, b).order, sessionKey, beyond);
  }

  /** A request whose end lies 19500 seconds before its start, when all maximum lifetimes are ten hours, is
      granted a ticket of thirty days. */
  lemma NegativeRequestExceeds(db: Database, conf: Conf, c: Cipher, now: int, beyond: int, header: Bytes, name: Bytes,
                               inst: Bytes, start: int, challenge: int, rest: Bytes, sessionKey: Bytes, client: Princ,
                               service: Princ)
    requires Invertible(c) && |header| == 32 && Fits(name) && Fits(inst) && |rest| >= 8
    requires CheckPrinc(db, now, name, inst) == Found(client)
    requires CheckPrinc(db, now, KRBTGT, conf.cell) == Found(service)
    requires KeyOk(c, client) && 19500 <= start < TWO_TO_THE_31
    requires client.maxLife == service.maxLife == conf.maxLife == 36000
    ensures var b := header + (PStr(name) + (PStr(inst) + (IntBytes(start) + (IntBytes(start - 19500) + (IntBytes(8)
                       + (c.enc(client.key, IntBytes(challenge) + GTGS) + rest))))));
      && AuthOutcome(db, conf, c, now, b).Grant?
      && var t := Granted(conf, client, service, AuthOutcome(db, conf, c, now, b).order, sessionKey);
      Lifetimes.Seconds(t.life as nat, beyond) == Lifetimes.LONGEST
  {
    hide AuthOutcome, CheckPrinc, KeyOk, IntBytes, PStr, Fits, Invertible, Lifetimes.CmuSeconds, Lifetimes.LifeByte;
    hide Lifetimes.Seconds;
    ProperRequestGranted(db, conf, c, now, header, name, inst, start, start - 19500, challenge, rest);
    assert S32(start) == start && S32(start - 19500) == start - 19500;
    Lifetimes.NegativeLifetimes(-19500, beyond);
    Lifetimes.Ends();
  }

  /** One second into a ticket of 41055 seconds, the derived ticket is rounded up to end a second later. */
  lemma DerivedTicketCanOutlive(beyond: int)
    ensures var t := Ticket(0, [97], [], [], 0, [1, 2, 3, 4, 5, 6, 7, 8], 129, 1000, KRBTGT, [99]);
      var conf := Conf([99], [99], Lifetimes.LONGEST);
      var p := Princ([], Lifetimes.LONGEST, 1, 0, 0, false, false);
      var j := Judge(conf, 1001, beyond, t, [99], AFS, [], 1001, 42055);
      && j.Grant? && EndOf(t, beyond) == 42055
      && j.order.start
         + Lifetimes.Seconds(Lifetimes.LifeByte(Bounded(conf, p, p, j.order.start, j.order.end)), beyond) == 42056
  {
    hide Lifetimes.Entry;
    assert Lifetimes.CmuSeconds(0) == 38400 && Lifetimes.CmuSeconds(1) == 41055;
    TableSteps();
  }

  lemma TableSteps()
    ensures Lifetimes.Entry(41054, 0) == 1
  {
    assert Lifetimes.CmuSeconds(0) == 38400 && Lifetimes.CmuSeconds(1) == 41055;
    assert Lifetimes.Entry(41054, 1) == 1;
  }

  lemma IssuedReadsBack(conf: Conf, c: Cipher, o: Order, lifetime: int, sessionKey: Bytes, key: Bytes)
    requires Invertible(c) && |sessionKey| == 8
    requires Fits(o.cname) && Fits(o.cinst) && o.sname == KRBTGT && o.sinst == conf.cell && Fits(conf.cell)
    requires 0 <= o.start < TWO_TO_THE_32
    ensures var t := Issued(conf, o, lifetime, sessionKey); TicketOf(c.dec(key, Sealed(c, key, t))) == Opened(t)
    ensures Issued(conf, o, lifetime, sessionKey).sinst == conf.cell
  {
    hide TicketOf, Sealed, Lifetimes.LifeByte, Fits;
    assert Fits([]) by { FitsEmpty(); }
    assert Fits(KRBTGT) by { FitsKrbtgt(); }
    SealedOpens(c, key, Issued(conf, o, lifetime, sessionKey));
  }

  /** A ticket-granting ticket that the server has issued is read back as issued, and accepted for a
      prompt request at exactly the moments between its start, less the skew, and its end. */
  lemma IssuedIsAccepted(db: Database, conf: Conf, c: Cipher, o: Order, lifetime: int, sessionKey: Bytes, tgs: Princ,
                         now: int, beyond: int, b: Bytes)
    requires Invertible(c) && c.usable(sessionKey) && |sessionKey| == 8 && KeyOk(c, tgs)
    requires Fits(o.cname) && Fits(o.cinst) && o.sname == KRBTGT && o.sinst == conf.cell && Fits(conf.cell)
    requires 0 <= o.start < TWO_TO_THE_31
    requires 0 <= o.start + Lifetimes.Seconds(Lifetimes.LifeByte(lifetime), beyond) < TWO_TO_THE_31
    requires var r := RequestOf(conf, b);
      && r.Request? && r.ticket == Sealed(c, tgs.key, Issued(conf, o, lifetime, sessionKey))
      && EqFold(r.cell, conf.cell) && Served(r.rname, r.rinst)
      && CheckPrinc(db, now, KRBTGT, r.cell) == Found(tgs)
      && var open := c.ecb(sessionKey, r.times);
      |open| == TIMES_SIZE && now - CLOCK_SKEW <= IntOf(open[..4]) <= now + CLOCK_SKEW
    requires 0 <= now < TWO_TO_THE_31
    ensures var t := Issued(conf, o, lifetime, sessionKey);
      var last := o.start + Lifetimes.Seconds(t.life as nat, beyond);
      && (Outcome(db, conf, c, now, beyond, b).Grant? <==> CLOCK_SKEW <= o.start && o.start - CLOCK_SKEW <= now <= last)
      && (Outcome(db, conf, c, now, beyond, b).Grant? ==>
        (var g := Outcome(db, conf, c, now, beyond, b).order;
        g.cname == o.cname && g.cinst == o.cinst && g.key == sessionKey))
  {
    hide RequestOf, TicketOf, IntOf, CheckPrinc, Sealed, Lifetimes.LifeByte, Lifetimes.Seconds, Fits, Invertible;
    AnyFolds(conf.cell);
    var r := RequestOf(conf, b);
    var t := Issued(conf, o, lifetime, sessionKey);
    IssuedReadsBack(conf, c, o, lifetime, sessionKey, tgs.key);
    var open := c.ecb(sessionKey, r.times);
    AcceptedExactly(conf, now, beyond, t, r.cell, r.rname, r.rinst, IntOf(open[..4]), IntOf(open[4..]));
  }

  lemma AnyFolds(s: Bytes)
    ensures EqFold(s, s)
  {
  }

  lemma FitsEmpty()
    ensures Fits([])
  {
  }

  lemma FitsKrbtgt()
    ensures Fits(KRBTGT)
  {
  }
}
