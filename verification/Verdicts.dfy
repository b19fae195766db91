/** Which requests the KA server refuses, and with which code, told by the database, the request and the clock. */
module Verdicts {
  import opened Integers
  import opened Packets
  import opened Tickets
  import Lifetimes

  // ----- a request for a ticket-granting ticket

  /** Of a request whose names are followed by times, a length, a sealed block and more: which code it gets, when
      it is granted, and what is ordered for it. */
  lemma AuthExactly(db: Database, conf: Conf, c: Cipher, now: int, header: Bytes, name: Bytes, inst: Bytes,
                    start: int, end: int, len: int, sealed: Bytes, rest: Bytes)
    requires Invertible(c) && |header| == 32 && Fits(name) && Fits(inst) && |sealed| == 8
    ensures var j := AuthOutcome(db, conf, c, now, header + (PStr(name) + (PStr(inst) + (IntBytes(start)
                                                   + (IntBytes(end) + (IntBytes(len) + (sealed + rest)))))));
      && (j == Deny(KANOENT) <==> Unknown(db, name, inst))
      && (j == Deny(KABADUSER) <==> Barred(db, now, name, inst))
      && (j.Grant? <==> InStanding(db, now, name, inst) && U32(len) == 8 && |rest| >= 8
                        && |db[(name, inst)].key| == 8 && c.usable(db[(name, inst)].key)
                        && c.dec(db[(name, inst)].key, sealed)[4..] == GTGS)
      && (j.Grant? ==>
            (var key := db[(name, inst)].key;
            j.order == Order(S32(IntOf(c.dec(key, sealed)[..4]) + 1), S32(start), S32(end), name, inst, KRBTGT,
                             conf.cell, key, TGST)))
  {
    hide GetInt, GetPStr, GetBytes, CStr, CheckPrinc, Unknown, InStanding, IntOf, IntBytes, PStr, S32, U32;
    var b5 := IntBytes(len) + (sealed + rest);
    var b4 := IntBytes(end) + b5;
    var b3 := IntBytes(start) + b4;
    var b2 := PStr(inst) + b3;
    var b1 := PStr(name) + b2;
    assert (header + b1)[32..] == b1;
    GotPStr(name, NAME_SIZE, b2);
    GotPStr(inst, NAME_SIZE, b3);
    WholeString(name);
    WholeString(inst);
    GotInt(start, b4);
    GotInt(end, b5);
    GotInt(len, sealed + rest);
    GotBytes(sealed, rest);
    Signs(start);
    Signs(end);
    CheckedExactly(db, now, name, inst);
  }

  /** An otherwise proper request, sealed with the client's key if it has one that may be used, is refused exactly
      when the client or the cell's ticket-granting service is unknown or barred, or the reply cannot be made. */
  lemma AuthRefusedExactly(db: Database, conf: Conf, c: Cipher, now: int, header: Bytes, name: Bytes, inst: Bytes,
                           start: int, end: int, sealed: Bytes, rest: Bytes, sessionKey: Bytes, maxn: nat)
    requires Invertible(c) && |header| == 32 && Fits(name) && Fits(inst) && |sealed| == 8 && |rest| >= 8
    requires InStanding(db, now, name, inst) ==>
      && |db[(name, inst)].key| == 8 && c.usable(db[(name, inst)].key)
      && c.dec(db[(name, inst)].key, sealed)[4..] == GTGS
    ensures var rv := AuthCode(db, conf, c, now, header + (PStr(name) + (PStr(inst) + (IntBytes(start) + (IntBytes(end)
                                                 + (IntBytes(8) + (sealed + rest)))))), sessionKey, maxn);
      Vetted(rv, db, now, name, inst, KRBTGT, conf.cell)
  {
    hide AuthOutcome, ReplyCode, Unknown, InStanding, PStr, IntBytes, Invertible, Fits;
    AuthExactly(db, conf, c, now, header, name, inst, start, end, 8, sealed, rest);
    var j := AuthOutcome(db, conf, c, now, header + (PStr(name) + (PStr(inst) + (IntBytes(start) + (IntBytes(end)
                                           + (IntBytes(8) + (sealed + rest)))))));
    if j.Grant? {
      ReplyVetted(db, conf, c, now, j.order, sessionKey, maxn);
    }
  }

  // ----- a request for a service ticket

  /** Every request for a service ticket: a code for an unknown or barred principal is returned exactly if the
      service whose ticket is shown, or then the client in that ticket, or then the service asked for, is one. */
  lemma TicketRefusedExactly(db: Database, conf: Conf, c: Cipher, now: int, beyond: int, b: Bytes, sessionKey: Bytes,
                             maxn: nat)
    requires Invertible(c)
    ensures var (r, j, rv) := (RequestOf(conf, b), Outcome(db, conf, c, now, beyond, b),
                               TicketCode(db, conf, c, now, beyond, b, sessionKey, maxn));
      && (r == BadRequest ==> rv == KABADREQUEST)
      && (r.Request? && Unknown(db, KRBTGT, r.cell) ==> rv == KANOENT)
      && (r.Request? && Barred(db, now, KRBTGT, r.cell) ==> rv == KABADUSER)
      && (j.Grant? ==> r.Request? && InStanding(db, now, KRBTGT, r.cell) && Orders(db, conf, c, r, j.order)
                       && Vetted(rv, db, now, j.order.cname, j.order.cinst, j.order.sname, j.order.sinst))
      && (r.Request? && InStanding(db, now, KRBTGT, r.cell) ==>
           (var key := db[(KRBTGT, r.cell)].key; |key| == 8 && c.usable(key)) || rv == KAINTERNALERROR)
      && (r.Request? && InStanding(db, now, KRBTGT, r.cell) && j.Deny? ==> rv !in {0, KANOENT, KABADUSER})
  {
    hide RequestOf, TicketOf, Judge, IntOf, CheckPrinc, Orders, ReplyCode, Vetted, Unknown;
    var r, j := RequestOf(conf, b), Outcome(db, conf, c, now, beyond, b);
    if r.Request? {
      CheckedExactly(db, now, KRBTGT, r.cell);
      JudgeCodes(conf);
    }
    if j.Grant? {
      TicketOrders(db, conf, c, now, beyond, b);
      ReplyVetted(db, conf, c, now, j.order, sessionKey, maxn);
    }
  }

  lemma JudgeCodes(conf: Conf)
    ensures forall now, beyond, t, cell, rname, rinst, start, end ::
      var j := Judge(conf, now, beyond, t, cell, rname, rinst, start, end);
      j.Deny? ==> j.code in {KABADTICKET, KABADSERVER, KACLOCKSKEW}
  {
    hide EqFold, Served, EndOf, U32, S32, Min;
  }

  /** The ticket is one that this server issues, and the request is for its cell. */
  ghost predicate Trusted(conf: Conf, t: Ticket, cell: Bytes) {
    && t.flags == 0 && t.ipaddr == 0 && t.sname == KRBTGT && EqFold(t.sinst, conf.cell)
    && EqFold(cell, conf.cell) && (t.realm == [] || EqFold(t.realm, cell))
  }

  /** The time is not before the ticket's start, less the skew, and not after its end. */
  ghost predicate Current(now: int, beyond: int, t: Ticket) {
    && U32(t.start - 300) <= U32(now)
    && U32(now) <= U32(t.start + Lifetimes.Seconds(t.life as nat, beyond))
  }

  /** Whether a request with a readable ticket is granted, and with which code it is refused otherwise. */
  lemma JudgedExactly(conf: Conf, now: int, beyond: int, t: Ticket, cell: Bytes, rname: Bytes, rinst: Bytes,
                      start: int, end: int)
    ensures var j := Judge(conf, now, beyond, t, cell, rname, rinst, start, end);
      var served := (rname, rinst) in {(AFS, []), (EMT, ADMIN), (ADM, ADMIN)};
      var prompt := -300 <= S32(now - start) <= 300;
      && (j.Grant? <==> Trusted(conf, t, cell) && served && Current(now, beyond, t) && prompt)
      && (j == Deny(KACLOCKSKEW) <==> Trusted(conf, t, cell) && served && Current(now, beyond, t) && !prompt)
      && (j == Deny(KABADSERVER) <==> Trusted(conf, t, cell) && !served)
      && (j == Deny(KABADTICKET) <==> !Trusted(conf, t, cell) || (served && !Current(now, beyond, t)))
  {
    hide EqFold, U32, S32, Min, Lifetimes.Seconds;
  }

  /** Within the clock, what is granted ends with the embedded ticket or when the request wants it to, whichever
      is first. */
  lemma DerivedEnds(conf: Conf, now: int, beyond: int, t: Ticket, cell: Bytes, rname: Bytes, rinst: Bytes, start: int,
                    end: int)
    requires Judge(conf, now, beyond, t, cell, rname, rinst, start, end).Grant?
    requires 0 <= now < TWO_TO_THE_31 && 0 <= start <= end && end - start < TWO_TO_THE_31
    requires EndOf(t, beyond) < TWO_TO_THE_31
    ensures var o := Judge(conf, now, beyond, t, cell, rname, rinst, start, end).order;
      && o.end <= EndOf(t, beyond) && o.end <= now + (end - start)
      && (o.end == EndOf(t, beyond) || o.end == now + (end - start))
  {
    InClock(now);
    EndsFirst(now, EndOf(t, beyond), start, end);
    hide EndOf, U32, S32, Min, EqFold, Served;
  }

  lemma EndsFirst(now: int, last: int, start: int, end: int)
    requires 0 <= now <= last < TWO_TO_THE_31 && 0 <= start <= end && end - start < TWO_TO_THE_31
    ensures var e := S32(now + Min(U32(last - now), U32(end - start)));
      e <= last && e <= now + (end - start) && (e == last || e == now + (end - start))
  {
  }

  /** Whatever name the database has for the service, the new ticket is in the names of the client and of the
      service asked for. */
  lemma AskedFor(conf: Conf, now: int, beyond: int, t: Ticket, cell: Bytes, rname: Bytes, rinst: Bytes, start: int,
                 end: int, client: Princ, service: Princ, sessionKey: Bytes)
    requires Judge(conf, now, beyond, t, cell, rname, rinst, start, end).Grant?
    ensures var o := Judge(conf, now, beyond, t, cell, rname, rinst, start, end).order;
      var derived := Granted(conf, client, service, o, sessionKey);
      && derived.cname == t.cname && derived.cinst == t.cinst && derived.sname == rname && derived.sinst == rinst
      && derived.key == sessionKey && derived.flags == 0 && derived.ipaddr == 0
  {
    hide U32, S32, Min, EndOf, Bounded, Lifetimes.LifeByte;
    Lowered(conf.cell);
    ServedNames();
  }

  lemma ServedNames()
    ensures AFS != EMT && AFS != ADM
  {
    assert AFS[0] != EMT[0] && AFS[1] != ADM[1];
  }

  /** The lower-case form of a name is the name but for the case of its letters, and has no capital. */
  lemma Lowered(s: Bytes)
    ensures EqFold(LowerAll(s), s) && forall b :: b in LowerAll(s) ==> !(65 <= b <= 90)
  {
    forall b | b in LowerAll(s) ensures !(65 <= b <= 90) {
      var i :| 0 <= i < |s| && LowerAll(s)[i] == b;
    }
  }

  /** Names are the same but for the case of their letters if their lower-case forms are the same. */
  lemma FoldsExactly(a: Bytes, b: Bytes)
    ensures EqFold(a, b) <==> LowerAll(a) == LowerAll(b)
  {
    hide Lower;
    assert forall i :: 0 <= i < |a| ==> LowerAll(a)[i] == Lower(a[i]);
    assert forall i :: 0 <= i < |b| ==> LowerAll(b)[i] == Lower(b[i]);
    assert |LowerAll(a)| == |a| && |LowerAll(b)| == |b|;
  }

  // ----- the constants, as they are written

  function Spelling(s: string): Bytes {
    seq(|s|, i requires 0 <= i < |s| => (s[i] as int % 256) as byte)
  }

  lemma Spelled()
    ensures KRBTGT == Spelling("krbtgt") && AFS == Spelling("afs") && EMT == Spelling("emt") && ADM == Spelling("adm")
    ensures ADMIN == Spelling("admin") && GTGS == Spelling("gTGS") && TGST == Spelling("tgsT")
    ensures GTKT == Spelling("gtkt")
  {
  }
}
