/**
 * What `add_phone` and `add_client` promise: the batch is split into
 * stored, denied and duplicate candidates, the phone table grows by exactly
 * the stored ones, the schema's constraints survive, and a new client can
 * be found again by its e-mail address.
 */
module AddProperties {
  import opened Tables
  import opened Descriptors
  import opened Normalizer
  import opened TitleCase
  import opened Resolver
  import opened Mutations

  lemma NormalizedAppend(xs: seq<string>, s: string)
    ensures Normalized(xs + [s]) == Normalized(xs) + [Last10(s)]
  {
  }

  lemma RowsForAppend(first: int, id: int, ns: seq<string>, n: string)
    ensures PhoneRowsFor(first, id, ns + [n]) == PhoneRowsFor(first, id, ns) + [PhoneRow(first + |ns|, id, n)]
  {
  }

  lemma HasNumberAppend(ps: seq<PhoneRow>, r: PhoneRow, x: string)
    ensures HasNumber(ps + [r], x) <==> HasNumber(ps, x) || r.number == x
  {
    assert r in ps + [r];
    if HasNumber(ps, x) {
      var p :| p in ps && p.number == x;
      assert p in ps + [r];
    }
  }

  lemma HasClientAppend(cs: seq<ClientRow>, c: ClientRow, id: int)
    ensures HasClient(cs + [c], id) <==> HasClient(cs, id) || c.id == id
  {
    assert c in cs + [c];
    if HasClient(cs, id) {
      var e :| e in cs && e.id == id;
      assert e in cs + [c];
    }
  }

  /** Once the INSERT has failed, the remaining candidates change nothing. */
  lemma {:induction false} BatchFailureSticks(cs: seq<ClientRow>, id: int, start: Batch, items: seq<string>)
    requires start.failed
    ensures RunBatch(cs, id, start, items) == start
    decreases |items|
  {
    if items != [] {
      BatchFailureSticks(cs, id, start, items[..|items| - 1]);
    }
  }

  lemma {:induction false} RunBatchAppend(cs: seq<ClientRow>, id: int, start: Batch, a: seq<string>, b: seq<string>)
    ensures RunBatch(cs, id, start, a + b) == RunBatch(cs, id, RunBatch(cs, id, start, a), b)
    decreases |b|
  {
    if b == [] {
      assert a + b == a;
    } else {
      assert (a + b)[..|a + b| - 1] == a + b[..|b| - 1];
      RunBatchAppend(cs, id, start, a, b[..|b| - 1]);
    }
  }

  /** A candidate that failed ends the loop: the whole run's result is the prefix's. */
  lemma BatchFailedPrefix(cs: seq<ClientRow>, id: int, start: Batch, items: seq<string>, i: nat)
    requires i <= |items| && RunBatch(cs, id, start, items[..i]).failed
    ensures RunBatch(cs, id, start, items) == RunBatch(cs, id, start, items[..i])
  {
    assert items == items[..i] + items[i..];
    RunBatchAppend(cs, id, start, items[..i], items[i..]);
    BatchFailureSticks(cs, id, RunBatch(cs, id, start, items[..i]), items[i..]);
  }

  /** The phone table grows by one row per stored candidate, in order, with fresh ids. */
  lemma {:induction false} BatchGrowth(cs: seq<ClientRow>, id: int, start: Batch, items: seq<string>)
    requires start.report == NO_PHONES
    ensures Grown(start, id, RunBatch(cs, id, start, items))
  {
    if items == [] {
      assert Normalized([]) == [];
    } else {
      var pre := RunBatch(cs, id, start, items[..|items| - 1]);
      BatchGrowth(cs, id, start, items[..|items| - 1]);
      GrowthStep(cs, id, start, pre, items[|items| - 1]);
    }
  }

  /** `b`'s table is `start`'s plus one row per inserted candidate. */
  predicate Grown(start: Batch, id: int, b: Batch) {
    b.phones == start.phones + PhoneRowsFor(start.nextPhoneId, id, Normalized(b.report.inserted)) &&
    b.nextPhoneId == start.nextPhoneId + |b.report.inserted|
  }

  lemma GrowthStep(cs: seq<ClientRow>, id: int, start: Batch, pre: Batch, s: string)
    requires Grown(start, id, pre)
    ensures Grown(start, id, InsertStep(cs, id, pre, s))
  {
    var b := InsertStep(cs, id, pre, s);
    InsertStepGrowth(cs, id, pre, s);
    if b.report.inserted != pre.report.inserted {
      var ns := Normalized(pre.report.inserted);
      NormalizedAppend(pre.report.inserted, s);
      RowsForAppend(start.nextPhoneId, id, ns, Last10(s));
      assert b.phones == pre.phones + [PhoneRow(pre.nextPhoneId, id, Last10(s))];
    }
  }

  /** One candidate either leaves the table alone or appends the one row it stores. */
  lemma InsertStepGrowth(cs: seq<ClientRow>, id: int, b: Batch, s: string)
    ensures var b' := InsertStep(cs, id, b, s);
      (b'.phones == b.phones && b'.nextPhoneId == b.nextPhoneId && b'.report.inserted == b.report.inserted) ||
      (b'.phones == b.phones + [PhoneRow(b.nextPhoneId, id, Last10(s))] && b'.nextPhoneId == b.nextPhoneId + 1 &&
       b'.report.inserted == b.report.inserted + [s])
  {
  }

  /**
   * Each candidate lands in exactly one list: too short ones in `denied`,
   * accepted ones in `inserted` or `duplicates`. No candidate is lost
   * unless the loop ended on a foreign-key error, which only a missing
   * client causes and which leaves nothing stored.
   */
  lemma {:induction false} BatchSorting(cs: seq<ClientRow>, id: int, start: Batch, items: seq<string>)
    requires start.report == NO_PHONES && !start.failed
    ensures var b := RunBatch(cs, id, start, items);
      (forall s | s in b.report.denied :: !Accepted(s)) &&
      (forall s | s in b.report.inserted :: Accepted(s)) &&
      (forall s | s in b.report.duplicates :: Accepted(s)) &&
      (!HasClient(cs, id) ==> b.report.inserted == []) &&
      (b.failed ==> !HasClient(cs, id)) &&
      (!b.failed ==> multiset(items) ==
                     multiset(b.report.inserted) + multiset(b.report.duplicates) + multiset(b.report.denied))
  {
    if items != [] {
      var prefix := items[..|items| - 1];
      var s := items[|items| - 1];
      assert items == prefix + [s];
      assert multiset(items) == multiset(prefix) + multiset{s};
      BatchSorting(cs, id, start, prefix);
      var pre := RunBatch(cs, id, start, prefix);
      var r := pre.report;
      var b := InsertStep(cs, id, pre, s);
      assert RunBatch(cs, id, start, items) == b;
      if pre.failed {
        assert b == pre;
      } else if !Accepted(s) {
        assert b.report == r.(denied := r.denied + [s]) && !b.failed;
      } else if HasNumber(pre.phones, Last10(s)) {
        assert b.report == r.(duplicates := r.duplicates + [s]) && !b.failed;
      } else if !HasClient(cs, id) {
        assert b.report == r && b.failed;
      } else {
        assert b.report == r.(inserted := r.inserted + [s]) && !b.failed;
      }
    }
  }

  /** After a loop without error every accepted candidate's stored form is in the table. */
  lemma {:induction false} BatchCovers(cs: seq<ClientRow>, id: int, start: Batch, items: seq<string>)
    requires !start.failed
    ensures var b := RunBatch(cs, id, start, items);
      !b.failed ==> forall s | s in items && Accepted(s) :: HasNumber(b.phones, Last10(s))
  {
    if items != [] {
      var prefix := items[..|items| - 1];
      var s := items[|items| - 1];
      var pre := RunBatch(cs, id, start, prefix);
      var b := InsertStep(cs, id, pre, s);
      assert RunBatch(cs, id, start, items) == b;
      BatchCovers(cs, id, start, prefix);
      if !b.failed {
        assert !pre.failed;
        if Accepted(s) && !HasNumber(pre.phones, Last10(s)) {
          var r := PhoneRow(pre.nextPhoneId, id, Last10(s));
          assert b.phones == pre.phones + [r];
          forall y | HasNumber(pre.phones, y) || y == Last10(s) ensures HasNumber(b.phones, y) {
            HasNumberAppend(pre.phones, r, y);
          }
        } else {
          assert b.phones == pre.phones;
        }
        forall x | x in items && Accepted(x) ensures HasNumber(b.phones, Last10(x)) {
          if x != s {
            assert x in prefix by {
              assert items == prefix + [s];
            }
          }
        }
      }
    }
  }

  /** The loop keeps the phone table's keys, its CHECK constraint and its foreign key. */
  lemma {:induction false} BatchKeepsKeys(cs: seq<ClientRow>, id: int, start: Batch, items: seq<string>)
    requires 1 <= start.nextPhoneId
    requires PhoneKeys(start.phones, start.nextPhoneId) && References(cs, start.phones)
    ensures var b := RunBatch(cs, id, start, items);
      PhoneKeys(b.phones, b.nextPhoneId) && References(cs, b.phones) && start.nextPhoneId <= b.nextPhoneId
  {
    if items != [] {
      var pre := RunBatch(cs, id, start, items[..|items| - 1]);
      var s := items[|items| - 1];
      BatchKeepsKeys(cs, id, start, items[..|items| - 1]);
      if !pre.failed && Accepted(s) && !HasNumber(pre.phones, Last10(s)) && HasClient(cs, id) {
        var r := PhoneRow(pre.nextPhoneId, id, Last10(s));
        var ps := pre.phones + [r];
        forall i, j | 0 <= i < j < |ps| ensures ps[i].phoneId != ps[j].phoneId && ps[i].number != ps[j].number {
          if j == |ps| - 1 {
            assert ps[i] in pre.phones;
          }
        }
        forall p | p in ps ensures HasClient(cs, p.clientId) {
          if p != r {
            assert p in pre.phones;
          }
        }
      }
    }
  }

  /**
   * `add_phone`'s loop for client `id`: an error only when the client is
   * missing, and then nothing changed; otherwise the phone table grows by
   * exactly the stored candidates (in their ten-character form, owned by
   * `id`), denied candidates are the short ones, and every accepted one is
   * present afterwards, stored now or found as a duplicate.
   */
  lemma StorePhonesMeaning(t: Tables, id: int, items: seq<string>)
    ensures var e := StorePhones(t, id, items);
      e.tables.clients == t.clients && e.tables.nextClientId == t.nextClientId &&
      (e.outcome.Raised? ==> e.outcome.error == ForeignKeyViolation && e.tables == t && !HasClient(t.clients, id)) &&
      (HasClient(t.clients, id) ==> e.outcome.Done?) &&
      (e.outcome.Done? ==>
         var r := e.outcome.value;
         e.tables.phones == t.phones + PhoneRowsFor(t.nextPhoneId, id, Normalized(r.inserted)) &&
         e.tables.nextPhoneId == t.nextPhoneId + |r.inserted| &&
         multiset(items) == multiset(r.inserted) + multiset(r.duplicates) + multiset(r.denied) &&
         (forall s | s in r.denied :: !Accepted(s)) &&
         (forall s | s in r.inserted + r.duplicates :: Accepted(s)) &&
         (forall s | s in items && Accepted(s) :: HasNumber(e.tables.phones, Last10(s))))
  {
    var start := Batch(t.phones, t.nextPhoneId, NO_PHONES, false);
    BatchGrowth(t.clients, id, start, items);
    BatchSorting(t.clients, id, start, items);
    BatchCovers(t.clients, id, start, items);
    var b := RunBatch(t.clients, id, start, items);
    if b.failed {
      assert Normalized([]) == [];
      assert b.phones == t.phones;
    }
  }

  lemma StorePhonesKeepsSchema(t: Tables, id: int, items: seq<string>)
    requires Consistent(t)
    ensures Consistent(StorePhones(t, id, items).tables)
  {
    BatchKeepsKeys(t.clients, id, Batch(t.phones, t.nextPhoneId, NO_PHONES, false), items);
  }

  /** `add_phone` never breaks a constraint of the schema. */
  lemma AddPhoneKeepsSchema(t: Tables, d: Descriptor, known: Option<int>)
    requires Consistent(t)
    ensures Consistent(AddPhoneEffect(t, d, known).tables)
  {
    var r := if known.Some? && known.value != 0 then Resolved(known.value) else Resolve(t, d);
    if r.Resolved? && r.id != 0 && d.newNumber.Some? {
      StorePhonesKeepsSchema(t, r.id, Items(d.newNumber.value));
    }
  }

  /**
   * Whose numbers `add_phone` stores: a truthy known id is used as it is,
   * without a lookup; otherwise the resolved id. A missing `new_number`
   * raises before anything is written.
   */
  lemma AddPhoneTarget(t: Tables, d: Descriptor, known: Option<int>)
    ensures known.Some? && known.value != 0 && d.newNumber.Some? ==>
              AddPhoneEffect(t, d, known) == StorePhones(t, known.value, Items(d.newNumber.value))
    ensures !(known.Some? && known.value != 0) && Resolve(t, d).Resolved? && Resolve(t, d).id != 0 &&
            d.newNumber.Some? ==>
              AddPhoneEffect(t, d, known) == StorePhones(t, Resolve(t, d).id, Items(d.newNumber.value))
    ensures ((known.Some? && known.value != 0) || (Resolve(t, d).Resolved? && Resolve(t, d).id != 0)) &&
            d.newNumber.None? ==>
              AddPhoneEffect(t, d, known) == Effect(t, Raised(NotIterable))
  {
  }

  /** Without a client to attach the numbers to, `add_phone` changes nothing. */
  lemma AddPhoneUnresolved(t: Tables, d: Descriptor)
    requires !(Resolve(t, d).Resolved? && Resolve(t, d).id != 0)
    ensures AddPhoneEffect(t, d, None) == Effect(t, Refused(ClientUnresolved))
  {
  }

  lemma RunBatchSnoc(cs: seq<ClientRow>, id: int, start: Batch, items: seq<string>, s: string)
    ensures RunBatch(cs, id, start, items + [s]) == InsertStep(cs, id, RunBatch(cs, id, start, items), s)
  {
    assert (items + [s])[..|items|] == items;
  }

  /** The batch `[123, 9991234567]`: the short number is denied, the other stored. */
  lemma MixedBatch(t: Tables, id: int)
    requires HasClient(t.clients, id) && !HasNumber(t.phones, "9991234567")
    ensures StorePhones(t, id, ["123", "9991234567"]).outcome == Done(PhoneReport(["9991234567"], ["123"], []))
    ensures StorePhones(t, id, ["123", "9991234567"]).tables.phones ==
            t.phones + [PhoneRow(t.nextPhoneId, id, "9991234567")]
  {
    var start := Batch(t.phones, t.nextPhoneId, NO_PHONES, false);
    RunBatchSnoc(t.clients, id, start, [], "123");
    RunBatchSnoc(t.clients, id, start, ["123"], "9991234567");
    assert [] + ["123"] == ["123"];
    assert ["123"] + ["9991234567"] == ["123", "9991234567"];
    assert !Accepted("123");
    var b1 := start.(report := PhoneReport([], ["123"], []));
    assert RunBatch(t.clients, id, start, ["123"]) == b1;
    assert Accepted("9991234567") && Last10("9991234567") == "9991234567";
    var b2 := InsertStep(t.clients, id, b1, "9991234567");
    assert b2.report == PhoneReport([] + ["9991234567"], ["123"], []);
    assert [] + ["9991234567"] == ["9991234567"];
    assert !b2.failed && b2.report == PhoneReport(["9991234567"], ["123"], []);
    assert RunBatch(t.clients, id, start, ["123", "9991234567"]) == b2;
  }

  // ---------------------------------------------------------------------------
  // add_client

  /** A missing name, surname or mail inserts nothing. */
  lemma AddClientMissingField(t: Tables, d: Descriptor)
    requires d.name.None? || d.surname.None? || d.mail.None?
    ensures AddClientEffect(t, d) == Effect(t, Refused(MissingRequiredField))
  {
  }

  /** An address that is already stored inserts nothing and leaves every client row as it was. */
  lemma AddClientDuplicateMail(t: Tables, d: Descriptor)
    requires d.name.Some? && d.surname.Some? && d.mail.Some? && HasMail(t.clients, d.mail.value)
    ensures AddClientEffect(t, d) == Effect(t, Raised(UniqueViolation))
  {
  }

  /**
   * A complete descriptor with a new address appends one client row with a
   * fresh id above every stored id, title-cased name and surname and the
   * address as given; the numbers, if any, are stored for that id.
   */
  lemma AddClientInserts(t: Tables, d: Descriptor)
    requires Consistent(t)
    requires d.name.Some? && d.surname.Some? && d.mail.Some? && !HasMail(t.clients, d.mail.value)
    ensures var e := AddClientEffect(t, d);
      var id := t.nextClientId;
      e.outcome.Done? && e.outcome.value.id == id &&
      (forall c | c in t.clients :: c.id < id) &&
      e.tables.clients == t.clients + [ClientRow(id, Title(d.name.value), Title(d.surname.value), d.mail.value)] &&
      e.tables.nextClientId == id + 1 &&
      (!NumberGiven(d) ==> e.outcome.value.phones == None && e.tables.phones == t.phones) &&
      (NumberGiven(d) ==>
         e.outcome.value.phones.Some? && e.outcome.value.phones.value.Done? &&
         e.tables.phones == t.phones + PhoneRowsFor(t.nextPhoneId, id, StoredNumbers(e.outcome.value)))
  {
    var id := t.nextClientId;
    var row := ClientRow(id, Title(d.name.value), Title(d.surname.value), d.mail.value);
    var t1 := t.(clients := t.clients + [row], nextClientId := id + 1);
    forall c | c in t.clients ensures c.id < id {
      var i :| 0 <= i < |t.clients| && t.clients[i] == c;
    }
    if NumberGiven(d) {
      CascadeEffect(t, d);
      HasClientAppend(t.clients, row, id);
      StorePhonesMeaning(t1, id, Items(d.number.value));
    }
  }

  /** With numbers, `add_client` is the new row followed by `add_phone`'s loop for the new id. */
  lemma CascadeEffect(t: Tables, d: Descriptor)
    requires 1 <= t.nextClientId
    requires d.name.Some? && d.surname.Some? && d.mail.Some? && !HasMail(t.clients, d.mail.value)
    requires NumberGiven(d)
    ensures var row := ClientRow(t.nextClientId, Title(d.name.value), Title(d.surname.value), d.mail.value);
      var t1 := t.(clients := t.clients + [row], nextClientId := t.nextClientId + 1);
      var p := StorePhones(t1, t.nextClientId, Items(d.number.value));
      AddClientEffect(t, d) == Effect(p.tables, Done(ClientReport(t.nextClientId, Some(p.outcome))))
  {
  }

  /** Appending a fresh client row keeps the schema. */
  lemma NewClientKeepsSchema(t: Tables, row: ClientRow)
    requires Consistent(t)
    requires row.id == t.nextClientId && !HasMail(t.clients, row.mail)
    ensures Consistent(t.(clients := t.clients + [row], nextClientId := row.id + 1))
  {
    var cs := t.clients + [row];
    forall i, j | 0 <= i < j < |cs| ensures cs[i].id != cs[j].id && cs[i].mail != cs[j].mail {
      if j == |cs| - 1 {
        assert cs[i] in t.clients;
      }
    }
    forall p | p in t.phones ensures HasClient(cs, p.clientId) {
      HasClientAppend(t.clients, row, p.clientId);
    }
  }

  /** `add_client` never breaks a constraint of the schema. */
  lemma AddClientKeepsSchema(t: Tables, d: Descriptor)
    requires Consistent(t)
    ensures Consistent(AddClientEffect(t, d).tables)
  {
    if d.name.Some? && d.surname.Some? && d.mail.Some? && !HasMail(t.clients, d.mail.value) {
      var id := t.nextClientId;
      var row := ClientRow(id, Title(d.name.value), Title(d.surname.value), d.mail.value);
      NewClientKeepsSchema(t, row);
      if NumberGiven(d) {
        AddPhoneKeepsSchema(t.(clients := t.clients + [row], nextClientId := id + 1), Cascade(d.number.value), Some(id));
      }
    }
  }

  lemma {:induction false} NumbersOfRowsFor(first: int, id: int, ns: seq<string>)
    ensures NumbersOf(PhoneRowsFor(first, id, ns), id) == ns
    decreases |ns|
  {
    if ns != [] {
      assert PhoneRowsFor(first, id, ns)[1..] == PhoneRowsFor(first + 1, id, ns[1..]);
      NumbersOfRowsFor(first + 1, id, ns[1..]);
    }
  }

  lemma {:induction false} NoNumbersOfUnknown(ps: seq<PhoneRow>, id: int)
    requires forall p | p in ps :: p.clientId != id
    ensures NumbersOf(ps, id) == []
  {
    if ps != [] {
      assert ps[0] in ps;
      forall p | p in ps[1..] ensures p.clientId != id {
        assert p in ps;
      }
      NoNumbersOfUnknown(ps[1..], id);
    }
  }

  /** The stored forms of the numbers the cascade of `add_client` inserted. */
  function StoredNumbers(r: ClientReport): seq<string> {
    if r.phones.Some? && r.phones.value.Done? then Normalized(r.phones.value.value.inserted) else []
  }

  lemma NewClientHasNoPhones(t: Tables)
    requires Consistent(t)
    ensures NumbersOf(t.phones, t.nextClientId) == []
  {
    forall p | p in t.phones ensures p.clientId != t.nextClientId {
      var c :| c in t.clients && c.id == p.clientId;
      var i :| 0 <= i < |t.clients| && t.clients[i] == c;
    }
    NoNumbersOfUnknown(t.phones, t.nextClientId);
  }

  /**
   * Round trip: after `add_client`, looking the client up by its address
   * gives back the new id, the title-cased name and surname, the address,
   * and exactly the stored forms of the numbers that were inserted.
   */
  lemma AddThenFindByMail(t: Tables, d: Descriptor)
    requires Consistent(t)
    requires d.name.Some? && d.surname.Some? && Given(d.mail) && !HasMail(t.clients, d.mail.value)
    ensures var e := AddClientEffect(t, d);
      e.outcome.Done? &&
      Find(e.tables, NO_INFO.(mail := d.mail)) ==
        Some(View(t.nextClientId, Title(d.name.value), Title(d.surname.value), d.mail.value,
                  StoredNumbers(e.outcome.value)))
  {
    var e := AddClientEffect(t, d);
    var row := ClientRow(t.nextClientId, Title(d.name.value), Title(d.surname.value), d.mail.value);
    AddClientInserts(t, d);
    AddClientKeepsSchema(t, d);
    assert row in e.tables.clients;
    ResolveByMail(e.tables, NO_INFO.(mail := d.mail));
    NewClientNumbers(t, d);
  }

  /** The new client owns exactly the rows its cascade inserted. */
  lemma NewClientNumbers(t: Tables, d: Descriptor)
    requires Consistent(t)
    requires d.name.Some? && d.surname.Some? && d.mail.Some? && !HasMail(t.clients, d.mail.value)
    ensures var e := AddClientEffect(t, d);
      e.outcome.Done? && NumbersOf(e.tables.phones, t.nextClientId) == StoredNumbers(e.outcome.value)
  {
    var e := AddClientEffect(t, d);
    var id := t.nextClientId;
    AddClientInserts(t, d);
    NewClientHasNoPhones(t);
    if NumberGiven(d) {
      var ns := StoredNumbers(e.outcome.value);
      NumbersOfAppend(t.phones, PhoneRowsFor(t.nextPhoneId, id, ns), id);
      NumbersOfRowsFor(t.nextPhoneId, id, ns);
    }
  }

  /** The worked example: ivan petrov with one number, found again by mail. */
  lemma IvanRoundTrip(t: Tables)
    requires Consistent(t) && !HasMail(t.clients, "x@test") && !HasNumber(t.phones, "9991234567")
    ensures var d := NO_INFO.(name := Some("ivan"), surname := Some("petrov"), mail := Some("x@test"),
                              number := Some(One("9991234567")));
      Find(AddClientEffect(t, d).tables, NO_INFO.(mail := Some("x@test"))) ==
        Some(View(t.nextClientId, "Ivan", "Petrov", "x@test", ["9991234567"]))
  {
    var d := NO_INFO.(name := Some("ivan"), surname := Some("petrov"), mail := Some("x@test"),
                      number := Some(One("9991234567")));
    var id := t.nextClientId;
    var row := ClientRow(id, Title("ivan"), Title("petrov"), "x@test");
    var t1 := t.(clients := t.clients + [row], nextClientId := id + 1);
    AddThenFindByMail(t, d);
    TitleOfIvan();
    CascadeEffect(t, d);
    HasClientAppend(t.clients, row, id);
    MixedBatchOfOne(t1, id);
    assert Normalized(["9991234567"]) == ["9991234567"];
  }

  lemma MixedBatchOfOne(t: Tables, id: int)
    requires HasClient(t.clients, id) && !HasNumber(t.phones, "9991234567")
    ensures StorePhones(t, id, ["9991234567"]).outcome == Done(PhoneReport(["9991234567"], [], []))
  {
    var start := Batch(t.phones, t.nextPhoneId, NO_PHONES, false);
    RunBatchSnoc(t.clients, id, start, [], "9991234567");
    assert [] + ["9991234567"] == ["9991234567"];
    assert Accepted("9991234567") && Last10("9991234567") == "9991234567";
  }
}
