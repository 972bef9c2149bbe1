/**
 * What `delete_phone` and `delete_client` promise: exactly the named numbers
 * (or all of a client's numbers) leave the phone table, the report lists
 * each number that was present once, a deleted client leaves no phone row
 * behind, and the schema's constraints survive.
 */
module DeleteProperties {
  import opened Tables
  import opened Descriptors
  import opened Resolver
  import opened Mutations

  predicate NoRepeats(xs: seq<string>) {
    forall i, j | 0 <= i < j < |xs| :: xs[i] != xs[j]
  }

  /**
   * The selective loop: a row survives exactly when its number is not one
   * of `xs`, `removed` is the numbers of `xs` that were present, and no
   * number is reported twice.
   */
  lemma {:induction false} DeletesShape(start: Deletion, xs: seq<string>)
    requires start.removed == []
    ensures forall p :: p in RunDeletes(start, xs).phones <==> p in start.phones && p.number !in xs
    ensures forall x :: x in RunDeletes(start, xs).removed <==> x in xs && HasNumber(start.phones, x)
    ensures NoRepeats(RunDeletes(start, xs).removed)
    decreases |xs|
  {
    if xs != [] {
      var prefix := xs[..|xs| - 1];
      var x := xs[|xs| - 1];
      assert xs == prefix + [x];
      DeletesShape(start, prefix);
      var pre := RunDeletes(start, prefix);
      if HasNumber(pre.phones, x) {
        DropPhonesMembers(pre.phones, Numbered(x));
        var p :| p in pre.phones && p.number == x;
        assert HasNumber(start.phones, x);
        assert x !in pre.removed;
      }
    }
  }

  lemma {:induction false} DeletesKeepKeys(start: Deletion, xs: seq<string>, next: int)
    requires PhoneKeys(start.phones, next)
    ensures PhoneKeys(RunDeletes(start, xs).phones, next)
    ensures forall p | p in RunDeletes(start, xs).phones :: p in start.phones
    decreases |xs|
  {
    if xs != [] {
      var pre := RunDeletes(start, xs[..|xs| - 1]);
      DeletesKeepKeys(start, xs[..|xs| - 1], next);
      DropPhonesKeys(pre.phones, Numbered(xs[|xs| - 1]), next);
      DropPhonesMembers(pre.phones, Numbered(xs[|xs| - 1]));
    }
  }

  /**
   * `delete_phone(params)`: without a truthy `number` nothing happens;
   * otherwise the rows whose number is one of the given items go, every
   * other row stays, the client table is untouched, and the report names
   * each given number that was present, once.
   */
  lemma DeletePhoneMeaning(t: Tables, d: Descriptor)
    ensures var e := DeletePhoneEffect(t, d);
      (!NumberGiven(d) ==> e == Effect(t, Refused(MissingNumber))) &&
      (NumberGiven(d) ==>
         var xs := Items(d.number.value);
         e.tables == t.(phones := e.tables.phones) && e.outcome.Done? &&
         (forall p :: p in e.tables.phones <==> p in t.phones && p.number !in xs) &&
         (forall x :: x in e.outcome.value <==> x in xs && HasNumber(t.phones, x)) &&
         NoRepeats(e.outcome.value))
  {
    if NumberGiven(d) {
      var s := RunDeletes(Deletion(t.phones, []), Items(d.number.value));
      DeletesShape(Deletion(t.phones, []), Items(d.number.value));
      assert DeletePhoneEffect(t, d).outcome == Done(s.removed);
    }
  }

  lemma DeletePhoneKeepsSchema(t: Tables, d: Descriptor)
    requires Consistent(t)
    ensures Consistent(DeletePhoneEffect(t, d).tables)
  {
    if NumberGiven(d) {
      DeletesKeepKeys(Deletion(t.phones, []), Items(d.number.value), t.nextPhoneId);
    }
  }

  /**
   * `delete_phone(client_id, _all_numbers=True)`: every row of the client
   * goes and nothing else, and the call always returns normally, saying
   * whether there was one.
   */
  lemma DeletePhonesOfMeaning(t: Tables, id: int)
    requires Consistent(t)
    ensures var e := DeletePhonesOfEffect(t, id);
      Consistent(e.tables) && e.tables == t.(phones := e.tables.phones) &&
      (forall p :: p in e.tables.phones <==> p in t.phones && p.clientId != id) &&
      !HasPhoneOf(e.tables.phones, id) && NumbersOf(e.tables.phones, id) == [] &&
      e.outcome == Done(NumbersOf(t.phones, id) != [])
  {
    var ps := DropPhones(t.phones, OwnedBy(id));
    DropPhonesMembers(t.phones, OwnedBy(id));
    DropPhonesKeys(t.phones, OwnedBy(id), t.nextPhoneId);
    NumbersOfMembers(t.phones, id);
    NumbersOfMembers(ps, id);
    if NumbersOf(ps, id) != [] {
      assert NumbersOf(ps, id)[0] in NumbersOf(ps, id);
    }
    if HasPhoneOf(t.phones, id) {
      var p :| p in t.phones && p.clientId == id;
      assert p.number in NumbersOf(t.phones, id);
    }
    if NumbersOf(t.phones, id) != [] {
      assert NumbersOf(t.phones, id)[0] in NumbersOf(t.phones, id);
    }
  }

  /**
   * `delete_client(params)`: an unresolved client raises and nothing
   * changes; a resolved one loses its phone rows and its client row, every
   * other row of either table stays, and the report says which existed.
   */
  lemma DeleteClientMeaning(t: Tables, d: Descriptor)
    ensures var r := Resolve(t, d);
      var e := DeleteClientEffect(t, d);
      (!r.Resolved? ==> e == Effect(t, Raised(UndefinedColumn))) &&
      (r.Resolved? ==>
         (forall p :: p in e.tables.phones <==> p in t.phones && p.clientId != r.id) &&
         (forall c :: c in e.tables.clients <==> c in t.clients && c.id != r.id) &&
         !HasPhoneOf(e.tables.phones, r.id) && !HasClient(e.tables.clients, r.id) &&
         e.tables.nextClientId == t.nextClientId && e.tables.nextPhoneId == t.nextPhoneId &&
         e.outcome == Done(DeleteReport(HasPhoneOf(t.phones, r.id), HasClient(t.clients, r.id))))
  {
    var r := Resolve(t, d);
    if r.Resolved? {
      DropPhonesMembers(t.phones, OwnedBy(r.id));
      DropClientMembers(t.clients, r.id);
    }
  }

  /** Deleting the phones first keeps the foreign key when the client row goes. */
  lemma DeleteClientKeepsSchema(t: Tables, d: Descriptor)
    requires Consistent(t)
    ensures Consistent(DeleteClientEffect(t, d).tables)
  {
    var r := Resolve(t, d);
    if r.Resolved? {
      var e := DeleteClientEffect(t, d);
      DeleteClientMeaning(t, d);
      DropPhonesKeys(t.phones, OwnedBy(r.id), t.nextPhoneId);
      DropClientKeys(t.clients, r.id, t.nextClientId);
      forall p | p in e.tables.phones ensures HasClient(e.tables.clients, p.clientId) {
        var c :| c in t.clients && c.id == p.clientId;
        assert c in e.tables.clients;
      }
    }
  }

  /** After `delete_client`, a number the client owned no longer leads anywhere. */
  lemma DeleteThenNumberGone(t: Tables, d: Descriptor, x: string)
    requires Consistent(t)
    requires Resolve(t, d).Resolved? && x in NumbersOf(t.phones, Resolve(t, d).id)
    ensures var after := DeleteClientEffect(t, d).tables;
      Resolve(after, NO_INFO.(number := Some(One(x)))) == NotFound &&
      Find(after, NO_INFO.(number := Some(One(x)))) == None
  {
    var id := Resolve(t, d).id;
    var after := DeleteClientEffect(t, d).tables;
    NumbersOfMembers(t.phones, id);
    var p :| p in t.phones && p.clientId == id && p.number == x;
    DeleteClientMeaning(t, d);
    DeleteClientKeepsSchema(t, d);
    var key := NO_INFO.(number := Some(One(x)));
    var k :| 0 <= k < |t.phones| && t.phones[k] == p;
    assert |x| == NUMBER_LENGTH;
    assert NumberGiven(key) && First(key.number.value) == x;
    ResolveByNumber(after, key);
  }
}
