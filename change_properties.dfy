/**
 * What `change_client` promises: the client row gets the new name, surname
 * and address (the address only when no other client has it), the phone row
 * holding `number` gets the stored form of `new_number` (only when that is
 * long enough and not another row's number), and the schema's constraints
 * survive whatever is asked.
 */
module ChangeProperties {
  import opened Tables
  import opened Descriptors
  import opened Normalizer
  import opened Resolver
  import opened Mutations

  lemma {:induction false} RunChangesAppend(d: Descriptor, id: int, start: Change, a: seq<Update>, b: seq<Update>)
    ensures RunChanges(d, id, start, a + b) == RunChanges(d, id, RunChanges(d, id, start, a), b)
    decreases |b|
  {
    if b == [] {
      assert a + b == a;
    } else {
      assert (a + b)[..|a + b| - 1] == a + b[..|b| - 1];
      RunChangesAppend(d, id, start, a, b[..|b| - 1]);
    }
  }

  lemma RunChangesSnoc(d: Descriptor, id: int, start: Change, us: seq<Update>, u: Update)
    ensures RunChanges(d, id, start, us + [u]) == ChangeStep(d, id, RunChanges(d, id, start, us), u)
  {
    assert (us + [u])[..|us|] == us;
  }

  lemma RunChangesOne(d: Descriptor, id: int, start: Change, u: Update)
    ensures RunChanges(d, id, start, [u]) == ChangeStep(d, id, start, u)
  {
    assert [u][..0] == [];
  }

  /** Once an entry has raised, the remaining entries change nothing. */
  lemma {:induction false} ChangeFailureSticks(d: Descriptor, id: int, start: Change, us: seq<Update>)
    requires start.failed
    ensures RunChanges(d, id, start, us) == start
    decreases |us|
  {
    if us != [] {
      ChangeFailureSticks(d, id, start, us[..|us| - 1]);
    }
  }

  /** An entry that raised ends the loop: the whole run's result is the prefix's. */
  lemma FailedPrefix(d: Descriptor, id: int, start: Change, us: seq<Update>, i: nat)
    requires i <= |us| && RunChanges(d, id, start, us[..i]).failed
    ensures RunChanges(d, id, start, us) == RunChanges(d, id, start, us[..i])
  {
    assert us == us[..i] + us[i..];
    RunChangesAppend(d, id, start, us[..i], us[i..]);
    ChangeFailureSticks(d, id, RunChanges(d, id, start, us[..i]), us[i..]);
  }

  // ---------------------------------------------------------------------------
  // The schema survives every step

  /** Two client tables that agree on every row's id and address. */
  predicate SameKeys(a: seq<ClientRow>, b: seq<ClientRow>) {
    |a| == |b| && forall i | 0 <= i < |a| :: a[i].id == b[i].id && a[i].mail == b[i].mail
  }

  lemma SameKeysLookups(a: seq<ClientRow>, b: seq<ClientRow>)
    requires SameKeys(a, b)
    ensures forall x :: HasClient(b, x) <==> HasClient(a, x)
    ensures forall x, m :: MailTaken(b, x, m) <==> MailTaken(a, x, m)
  {
    forall x ensures HasClient(b, x) <==> HasClient(a, x) {
      if HasClient(a, x) {
        var i :| 0 <= i < |a| && a[i].id == x;
        assert b[i] in b;
      }
      if HasClient(b, x) {
        var i :| 0 <= i < |b| && b[i].id == x;
        assert a[i] in a;
      }
    }
    forall x, m ensures MailTaken(b, x, m) <==> MailTaken(a, x, m) {
      if MailTaken(a, x, m) {
        var i :| 0 <= i < |a| && a[i].id != x && a[i].mail == m;
        assert b[i] in b;
      }
      if MailTaken(b, x, m) {
        var i :| 0 <= i < |b| && b[i].id != x && b[i].mail == m;
        assert a[i] in a;
      }
    }
  }

  lemma SameKeysKeepSchema(t: Tables, cs: seq<ClientRow>)
    requires Consistent(t) && SameKeys(t.clients, cs)
    ensures Consistent(t.(clients := cs))
  {
    SameKeysLookups(t.clients, cs);
  }

  /** A new address that no other client has keeps the addresses unique. */
  lemma MailUpdateKeepsSchema(t: Tables, id: int, v: string)
    requires Consistent(t)
    requires !(HasClient(t.clients, id) && MailTaken(t.clients, id, v))
    ensures Consistent(t.(clients := UpdateClients(t.clients, id, NewMail(v))))
  {
    var cs := t.clients;
    var cs' := UpdateClients(cs, id, NewMail(v));
    forall i, j | 0 <= i < j < |cs'| ensures cs'[i].id != cs'[j].id && cs'[i].mail != cs'[j].mail {
      if cs[i].id == id {
        assert cs[j] in cs && cs[i] in cs;
      } else if cs[j].id == id {
        assert cs[i] in cs && cs[j] in cs;
      }
    }
    forall p | p in t.phones ensures HasClient(cs', p.clientId) {
      var i :| 0 <= i < |cs| && cs[i].id == p.clientId;
      assert cs'[i] in cs';
    }
  }

  /** Rewriting one phone's number to a ten-character number no other row has keeps the keys. */
  lemma PhoneRewriteKeepsSchema(t: Tables, k: nat, n: string)
    requires Consistent(t) && k < |t.phones| && |n| == NUMBER_LENGTH
    requires !NumberTaken(t.phones, k, n)
    ensures Consistent(t.(phones := t.phones[k := t.phones[k].(number := n)]))
  {
    var ps := t.phones;
    var ps' := ps[k := ps[k].(number := n)];
    forall i | 0 <= i < |ps'| ensures 1 <= ps'[i].phoneId < t.nextPhoneId && |ps'[i].number| == NUMBER_LENGTH {
      assert ps[i] in ps;
    }
    forall i, j | 0 <= i < j < |ps'| ensures ps'[i].phoneId != ps'[j].phoneId && ps'[i].number != ps'[j].number {
    }
    forall p | p in ps' ensures HasClient(t.clients, p.clientId) {
      var i :| 0 <= i < |ps'| && ps'[i] == p;
      assert ps[i] in ps;
    }
  }

  lemma NumberStepKeepsSchema(d: Descriptor, id: int, c: Change, v: NumberArg)
    requires Consistent(c.tables)
    ensures Consistent(ChangeStep(d, id, c, NewNumber(v)).tables)
  {
    var t := c.tables;
    if !c.failed && NumberGiven(d) && Accepted(Repr(v)) {
      var k := FindPhone(t.phones, Repr(d.number.value));
      var n := Last10(Repr(v));
      if k.Some? && !NumberTaken(t.phones, k.value, n) {
        assert ChangeStep(d, id, c, NewNumber(v)).tables == t.(phones := t.phones[k.value := t.phones[k.value].(number := n)]);
        PhoneRewriteKeepsSchema(t, k.value, n);
      } else {
        assert ChangeStep(d, id, c, NewNumber(v)) == c;
      }
    }
  }

  lemma ClientStepKeepsSchema(d: Descriptor, id: int, c: Change, u: Update)
    requires Consistent(c.tables) && !u.NewNumber?
    ensures Consistent(ChangeStep(d, id, c, u).tables)
  {
    var t := c.tables;
    if !c.failed {
      if u.NewMail? {
        if !(HasClient(t.clients, id) && MailTaken(t.clients, id, u.mail)) {
          MailUpdateKeepsSchema(t, id, u.mail);
        }
      } else {
        var cs := UpdateClients(t.clients, id, u);
        assert ChangeStep(d, id, c, u).tables == t.(clients := cs);
        SameKeysKeepSchema(t, cs);
      }
    }
  }

  lemma StepKeepsSchema(d: Descriptor, id: int, c: Change, u: Update)
    requires Consistent(c.tables)
    ensures Consistent(ChangeStep(d, id, c, u).tables)
  {
    if u.NewNumber? {
      NumberStepKeepsSchema(d, id, c, u.number);
    } else {
      ClientStepKeepsSchema(d, id, c, u);
    }
  }

  lemma {:induction false} RunKeepsSchema(d: Descriptor, id: int, start: Change, us: seq<Update>)
    requires Consistent(start.tables)
    ensures Consistent(RunChanges(d, id, start, us).tables)
    decreases |us|
  {
    if us != [] {
      RunKeepsSchema(d, id, start, us[..|us| - 1]);
      StepKeepsSchema(d, id, RunChanges(d, id, start, us[..|us| - 1]), us[|us| - 1]);
    }
  }

  /** `change_client` never breaks a constraint of the schema. */
  lemma ChangeClientKeepsSchema(t: Tables, d: Descriptor)
    requires Consistent(t)
    ensures Consistent(ChangeClientEffect(t, d).tables)
  {
    var r := Resolve(t, d);
    if r.Resolved? && r.id != 0 {
      RunKeepsSchema(d, r.id, Change(t, 0, false), Updates(d));
    }
  }

  // ---------------------------------------------------------------------------
  // The client row

  /** The new address is written: one was given, and no other client has it. */
  predicate MailFree(cs: seq<ClientRow>, id: int, d: Descriptor) {
    d.newMail.Some? && !(HasClient(cs, id) && MailTaken(cs, id, d.newMail.value))
  }

  /** Client row `c` with the descriptor's new columns; the address only when `mailFree`. */
  function RevisedRow(c: ClientRow, d: Descriptor, mailFree: bool): (r: ClientRow)
    requires mailFree ==> d.newMail.Some?
    ensures r.id == c.id
    ensures r.name == if d.newName.Some? then d.newName.value else c.name
    ensures r.surname == if d.newSurname.Some? then d.newSurname.value else c.surname
    ensures r.mail == if mailFree then d.newMail.value else c.mail
  {
    c.(name := if d.newName.Some? then d.newName.value else c.name,
       surname := if d.newSurname.Some? then d.newSurname.value else c.surname,
       mail := if mailFree then d.newMail.value else c.mail)
  }

  /** The client table as `change_client` leaves it for client `id`. */
  predicate Revised(cs: seq<ClientRow>, cs': seq<ClientRow>, id: int, d: Descriptor) {
    |cs'| == |cs| &&
    forall i | 0 <= i < |cs| :: cs'[i] == if cs[i].id == id then RevisedRow(cs[i], d, MailFree(cs, id, d)) else cs[i]
  }

  /** The name and surname entries: written into the row with id `id`, and counted. */
  lemma NamePhase(t: Tables, d: Descriptor, id: int)
    ensures var c := RunChanges(d, id, Change(t, 0, false), NameUpdates(d));
      !c.failed && c.tables == t.(clients := c.tables.clients) && c.applied == |NameUpdates(d)| &&
      |c.tables.clients| == |t.clients| &&
      forall i | 0 <= i < |t.clients| ::
        c.tables.clients[i] == if t.clients[i].id == id then RevisedRow(t.clients[i], d, false) else t.clients[i]
  {
    var a := if d.newName.Some? then [NewName(d.newName.value)] else [];
    var b := if d.newSurname.Some? then [NewSurname(d.newSurname.value)] else [];
    var c0 := Change(t, 0, false);
    RunChangesAppend(d, id, c0, a, b);
    var c1 := RunChanges(d, id, c0, a);
    if a != [] { RunChangesOne(d, id, c0, a[0]); }
    if b != [] { RunChangesOne(d, id, c1, b[0]); }
  }

  /**
   * The name, surname and mail entries rewrite the client row with id `id`
   * and no other row, never fail, leave the phone table alone, and `flag`
   * counts each of them except an address that was refused.
   */
  lemma ClientPhase(t: Tables, d: Descriptor, id: int)
    ensures var c := RunChanges(d, id, Change(t, 0, false), ClientUpdates(d));
      !c.failed && c.tables == t.(clients := c.tables.clients) &&
      Revised(t.clients, c.tables.clients, id, d) &&
      c.applied == |ClientUpdates(d)| - (if d.newMail.Some? && !MailFree(t.clients, id, d) then 1 else 0)
  {
    var m := if d.newMail.Some? then [NewMail(d.newMail.value)] else [];
    var c0 := Change(t, 0, false);
    RunChangesAppend(d, id, c0, NameUpdates(d), m);
    NamePhase(t, d, id);
    var c2 := RunChanges(d, id, c0, NameUpdates(d));
    var cs2 := c2.tables.clients;
    assert SameKeys(t.clients, cs2);
    SameKeysLookups(t.clients, cs2);
    if m != [] { RunChangesOne(d, id, c2, m[0]); }
  }

  /**
   * The client table after `change_client`: for a resolved client, its row
   * carries the new name and surname as given (not title-cased) and the new
   * address unless another client has it, and every other row is as it
   * was; for an unresolved client nothing changes.
   */
  lemma ChangeClientRow(t: Tables, d: Descriptor)
    requires Consistent(t)
    ensures var r := Resolve(t, d);
      var e := ChangeClientEffect(t, d);
      e.tables.nextClientId == t.nextClientId &&
      (!(r.Resolved? && r.id != 0) ==> e == Effect(t, Refused(ClientUnresolved))) &&
      (r.Resolved? && r.id != 0 ==> Revised(t.clients, e.tables.clients, r.id, d))
  {
    var r := Resolve(t, d);
    if r.Resolved? && r.id != 0 {
      var c0 := Change(t, 0, false);
      var n := if d.newNumber.Some? then [NewNumber(d.newNumber.value)] else [];
      RunChangesAppend(d, r.id, c0, ClientUpdates(d), n);
      ClientPhase(t, d, r.id);
      if n != [] {
        RunChangesOne(d, r.id, RunChanges(d, r.id, c0, ClientUpdates(d)), n[0]);
      }
    }
  }

  // ---------------------------------------------------------------------------
  // The phone row

  /**
   * The phone table after `change_client` for a resolved client. Without a
   * `new_number`, or without a truthy `number` to name the row (then the
   * call raises on the client table), it is unchanged. Otherwise the row
   * whose number is the text of `number` — whichever client owns it — gets
   * the stored form of `new_number`, unless that is too short or another
   * row already has it; when no row has that number nothing changes.
   */
  lemma ChangeClientPhones(t: Tables, d: Descriptor)
    requires Consistent(t)
    requires Resolve(t, d).Resolved? && Resolve(t, d).id != 0
    ensures var e := ChangeClientEffect(t, d);
      e.tables.nextPhoneId == t.nextPhoneId &&
      (d.newNumber.None? ==> e.outcome.Done? && e.tables.phones == t.phones) &&
      (d.newNumber.Some? && !NumberGiven(d) ==> e.outcome == Raised(UndefinedColumn) && e.tables.phones == t.phones) &&
      (d.newNumber.Some? && NumberGiven(d) ==>
         var key := Repr(d.number.value);
         var v := Repr(d.newNumber.value);
         e.outcome.Done? &&
         ((!Accepted(v) || !HasNumber(t.phones, key)) ==> e.tables.phones == t.phones) &&
         forall k | 0 <= k < |t.phones| && t.phones[k].number == key ::
           e.tables.phones == if Accepted(v) && !NumberTaken(t.phones, k, Last10(v))
                              then t.phones[k := t.phones[k].(number := Last10(v))]
                              else t.phones)
  {
    var id := Resolve(t, d).id;
    var c0 := Change(t, 0, false);
    var n := if d.newNumber.Some? then [NewNumber(d.newNumber.value)] else [];
    RunChangesAppend(d, id, c0, ClientUpdates(d), n);
    ClientPhase(t, d, id);
    var c := RunChanges(d, id, c0, ClientUpdates(d));
    if n != [] {
      RunChangesOne(d, id, c, n[0]);
      if NumberGiven(d) {
        var key := Repr(d.number.value);
        var f := FindPhone(t.phones, key);
        forall k | 0 <= k < |t.phones| && t.phones[k].number == key ensures f == Some(k) {
          assert f.Some?;
        }
      }
    }
  }
}
