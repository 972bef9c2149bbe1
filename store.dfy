/**
 * The phone book as the client class sees it: the two tables, changed in
 * place by the mutating operations. Each public method is proved to leave
 * exactly the state, and return exactly the outcome, that the matching
 * function of `Mutations` describes, and the schema's constraints hold
 * before and after it. The loops of `add_phone`, `change_client` and
 * selective `delete_phone` run statement by statement; their helper
 * methods match a whole run, or one step, of the loop's function.
 */
module Store {
  import opened Tables
  import opened Descriptors
  import opened Normalizer
  import opened TitleCase
  import opened Resolver
  import opened Mutations
  import AddProperties
  import ChangeProperties
  import DeleteProperties

  class Store {
    var clients: seq<ClientRow>
    var phones: seq<PhoneRow>
    var nextClientId: int
    var nextPhoneId: int

    /** Both tables as a value. */
    function Snapshot(): Tables
      reads this
    {
      Tables(clients, phones, nextClientId, nextPhoneId)
    }

    ghost predicate Valid()
      reads this
    {
      Consistent(Snapshot())
    }

    /** Freshly created tables: empty, both SERIAL sequences at 1. */
    constructor ()
      ensures Valid()
      ensures Snapshot() == Tables([], [], 1, 1)
    {
      clients := [];
      phones := [];
      nextClientId := 1;
      nextPhoneId := 1;
    }

    /** `add_phone(params, _existance=known)` */
    method AddPhone(d: Descriptor, known: Option<int>) returns (o: Outcome<PhoneReport>)
      requires Valid()
      modifies this
      ensures Valid()
      ensures Snapshot() == AddPhoneEffect(old(Snapshot()), d, known).tables
      ensures o == AddPhoneEffect(old(Snapshot()), d, known).outcome
    {
      AddProperties.AddPhoneKeepsSchema(Snapshot(), d, known);
      var r := if known.Some? && known.value != 0 then Resolved(known.value) else Resolve(Snapshot(), d);
      if !(r.Resolved? && r.id != 0) {
        return Refused(ClientUnresolved);
      }
      if d.newNumber.None? {
        return Raised(NotIterable);
      }
      var report, failed := InsertPhones(r.id, Items(d.newNumber.value));
      o := if failed then Raised(ForeignKeyViolation) else Done(report);
    }

    /** The INSERT loop of `add_phone` for client `id`; it stops at the first foreign-key error. */
    method InsertPhones(id: int, items: seq<string>) returns (report: PhoneReport, failed: bool)
      modifies this
      ensures clients == old(clients) && nextClientId == old(nextClientId)
      ensures Batch(phones, nextPhoneId, report, failed) ==
              RunBatch(clients, id, Batch(old(phones), old(nextPhoneId), NO_PHONES, false), items)
    {
      ghost var start := Batch(phones, nextPhoneId, NO_PHONES, false);
      report := NO_PHONES;
      failed := false;
      var i := 0;
      while i < |items|
        invariant 0 <= i <= |items|
        invariant clients == old(clients) && nextClientId == old(nextClientId)
        invariant RunBatch(clients, id, start, items[..i]) == Batch(phones, nextPhoneId, report, false)
      {
        var s := items[i];
        assert items[..i + 1] == items[..i] + [s];
        AddProperties.RunBatchSnoc(clients, id, start, items[..i], s);
        ghost var before := Batch(phones, nextPhoneId, report, false);
        if !Accepted(s) {
          report := report.(denied := report.denied + [s]);
          assert InsertStep(clients, id, before, s) == Batch(phones, nextPhoneId, report, false);
        } else if HasNumber(phones, Last10(s)) {
          report := report.(duplicates := report.duplicates + [s]);
          assert InsertStep(clients, id, before, s) == Batch(phones, nextPhoneId, report, false);
        } else if !HasClient(clients, id) {
          failed := true;
          AddProperties.BatchFailedPrefix(clients, id, start, items, i + 1);
          return;
        } else {
          phones := phones + [PhoneRow(nextPhoneId, id, Last10(s))];
          nextPhoneId := nextPhoneId + 1;
          report := report.(inserted := report.inserted + [s]);
          assert InsertStep(clients, id, before, s) == Batch(phones, nextPhoneId, report, false);
        }
        i := i + 1;
      }
      assert items[..i] == items;
    }

    /** `add_client(params)`, with its cascade into `add_phone`. */
    method AddClient(d: Descriptor) returns (o: Outcome<ClientReport>)
      requires Valid()
      modifies this
      ensures Valid()
      ensures Snapshot() == AddClientEffect(old(Snapshot()), d).tables
      ensures o == AddClientEffect(old(Snapshot()), d).outcome
    {
      if d.name.None? || d.surname.None? || d.mail.None? {
        return Refused(MissingRequiredField);
      }
      if HasMail(clients, d.mail.value) {
        return Raised(UniqueViolation);
      }
      var id := nextClientId;
      var row := ClientRow(id, Title(d.name.value), Title(d.surname.value), d.mail.value);
      AddProperties.NewClientKeepsSchema(Snapshot(), row);
      clients := clients + [row];
      nextClientId := id + 1;
      if NumberGiven(d) {
        var added := AddPhone(Cascade(d.number.value), Some(id));
        return Done(ClientReport(id, Some(added)));
      }
      return Done(ClientReport(id, None));
    }

    /** `change_client(params)`; a done outcome carries the final `flag`. */
    method ChangeClient(d: Descriptor) returns (o: Outcome<nat>)
      requires Valid()
      modifies this
      ensures Valid()
      ensures Snapshot() == ChangeClientEffect(old(Snapshot()), d).tables
      ensures o == ChangeClientEffect(old(Snapshot()), d).outcome
    {
      ChangeProperties.ChangeClientKeepsSchema(Snapshot(), d);
      var r := Resolve(Snapshot(), d);
      if !(r.Resolved? && r.id != 0) {
        return Refused(ClientUnresolved);
      }
      var flag, failed := ApplyEntries(d, r.id, Updates(d));
      o := if failed then Raised(UndefinedColumn) else Done(flag);
    }

    /** The loop of `change_client` for client `id`; it stops at the first entry that raises. */
    method ApplyEntries(d: Descriptor, id: int, us: seq<Update>) returns (flag: nat, failed: bool)
      modifies this
      ensures Change(Snapshot(), flag, failed) == RunChanges(d, id, Change(old(Snapshot()), 0, false), us)
    {
      ghost var start := Change(Snapshot(), 0, false);
      flag := 0;
      failed := false;
      var i := 0;
      while i < |us|
        invariant 0 <= i <= |us|
        invariant RunChanges(d, id, start, us[..i]) == Change(Snapshot(), flag, false)
      {
        ChangeProperties.RunChangesSnoc(d, id, start, us[..i], us[i]);
        assert us[..i + 1] == us[..i] + [us[i]];
        flag, failed := ApplyEntry(d, id, us[i], flag);
        if failed {
          ChangeProperties.FailedPrefix(d, id, start, us, i + 1);
          return;
        }
        i := i + 1;
      }
      assert us[..i] == us;
    }

    /** One `new_*` entry of `change_client`'s loop. */
    method ApplyEntry(d: Descriptor, id: int, u: Update, flag: nat) returns (flag': nat, failed: bool)
      modifies this
      ensures Change(Snapshot(), flag', failed) == ChangeStep(d, id, Change(old(Snapshot()), flag, false), u)
    {
      if u.NewNumber? && !NumberGiven(d) {
        return flag, true;
      } else if u.NewNumber? {
        flag' := RewritePhone(d, id, u.number, flag);
      } else {
        flag' := UpdateClient(d, id, u, flag);
      }
      failed := false;
    }

    /** A `new_number` entry with a truthy `number`: one phone row may get a new number. */
    method RewritePhone(d: Descriptor, id: int, v: NumberArg, flag: nat) returns (flag': nat)
      requires NumberGiven(d)
      modifies this
      ensures Change(Snapshot(), flag', false) == ChangeStep(d, id, Change(old(Snapshot()), flag, false), NewNumber(v))
    {
      flag' := flag;
      if Accepted(Repr(v)) {
        var k := FindPhone(phones, Repr(d.number.value));
        if k.Some? {
          var n := Last10(Repr(v));
          if !NumberTaken(phones, k.value, n) {
            phones := phones[k.value := phones[k.value].(number := n)];
            flag' := flag + 1;
          }
        }
      }
    }

    /** A `new_name`, `new_surname` or `new_mail` entry: an UPDATE of the client row. */
    method UpdateClient(d: Descriptor, id: int, u: Update, flag: nat) returns (flag': nat)
      requires !u.NewNumber?
      modifies this
      ensures Change(Snapshot(), flag', false) == ChangeStep(d, id, Change(old(Snapshot()), flag, false), u)
    {
      flag' := flag;
      if !(u.NewMail? && HasClient(clients, id) && MailTaken(clients, id, u.mail)) {
        clients := UpdateClients(clients, id, u);
        flag' := flag + 1;
      }
    }

    /** `delete_phone(params)`: the numbers given under `number` are deleted one by one. */
    method DeletePhone(d: Descriptor) returns (o: Outcome<seq<string>>)
      requires Valid()
      modifies this
      ensures Valid()
      ensures Snapshot() == DeletePhoneEffect(old(Snapshot()), d).tables
      ensures o == DeletePhoneEffect(old(Snapshot()), d).outcome
    {
      ghost var t0 := Snapshot();
      DeleteProperties.DeletePhoneKeepsSchema(t0, d);
      if !NumberGiven(d) {
        return Refused(MissingNumber);
      }
      var xs := Items(d.number.value);
      var removed: seq<string> := [];
      var i := 0;
      while i < |xs|
        invariant 0 <= i <= |xs|
        invariant clients == t0.clients && nextClientId == t0.nextClientId && nextPhoneId == t0.nextPhoneId
        invariant RunDeletes(Deletion(t0.phones, []), xs[..i]) == Deletion(phones, removed)
      {
        var x := xs[i];
        assert xs[..i + 1][..i] == xs[..i];
        if HasNumber(phones, x) {
          phones := DropPhones(phones, Numbered(x));
          removed := removed + [x];
        }
        i := i + 1;
      }
      assert xs[..i] == xs;
      return Done(removed);
    }

    /** `delete_phone(id, _all_numbers=True)` */
    method DeletePhonesOf(id: int) returns (o: Outcome<bool>)
      requires Valid()
      modifies this
      ensures Valid()
      ensures Snapshot() == DeletePhonesOfEffect(old(Snapshot()), id).tables
      ensures o == DeletePhonesOfEffect(old(Snapshot()), id).outcome
    {
      DeleteProperties.DeletePhonesOfMeaning(Snapshot(), id);
      var found := HasPhoneOf(phones, id);
      phones := DropPhones(phones, OwnedBy(id));
      return Done(found);
    }

    /** `delete_client(params)`: the client's phones first, then its row. */
    method DeleteClient(d: Descriptor) returns (o: Outcome<DeleteReport>)
      requires Valid()
      modifies this
      ensures Valid()
      ensures Snapshot() == DeleteClientEffect(old(Snapshot()), d).tables
      ensures o == DeleteClientEffect(old(Snapshot()), d).outcome
    {
      ghost var t0 := Snapshot();
      DeleteProperties.DeleteClientKeepsSchema(t0, d);
      var r := Resolve(Snapshot(), d);
      if !r.Resolved? {
        return Raised(UndefinedColumn);
      }
      var phonesFound := DeletePhonesOf(r.id);
      var clientFound := HasClient(clients, r.id);
      clients := DropClient(clients, r.id);
      return Done(DeleteReport(phonesFound.value, clientFound));
    }
  }
}
