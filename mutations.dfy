/**
 * What each mutating operation does to the two tables and what it reports,
 * as functions of the state before the call. The statement-by-statement
 * loops of the source are written as a step function and a run over a
 * prefix of the items, so that a loop can be checked against them item by
 * item.
 */
module Mutations {
  import opened Tables
  import opened Descriptors
  import opened Normalizer
  import opened TitleCase
  import opened Resolver

  /** A call that the source logs and returns from before writing anything. */
  datatype Refusal = MissingRequiredField | ClientUnresolved | MissingNumber

  /** An error the source does not catch; it ends the call. */
  datatype Raise = UniqueViolation | ForeignKeyViolation | UndefinedColumn | NotIterable

  datatype Outcome<+T> = Done(value: T) | Refused(reason: Refusal) | Raised(error: Raise)

  /** The tables after a call, and the call's outcome. */
  datatype Effect<+T> = Effect(tables: Tables, outcome: Outcome<T>)

  // ---------------------------------------------------------------------------
  // add_phone

  /** The candidates that were stored, rejected as too short, and skipped as already present. */
  datatype PhoneReport = PhoneReport(inserted: seq<string>, denied: seq<string>, duplicates: seq<string>)

  const NO_PHONES := PhoneReport([], [], [])

  /** The state of the loop over the candidates of `add_phone`. */
  datatype Batch = Batch(phones: seq<PhoneRow>, nextPhoneId: int, report: PhoneReport, failed: bool)

  /**
   * One candidate: a short one is denied; an accepted one whose stored form
   * is already present is skipped (the caught UniqueViolation); otherwise
   * the INSERT either fails on the foreign key, which ends the loop, or adds
   * a row.
   */
  function InsertStep(cs: seq<ClientRow>, id: int, b: Batch, s: string): Batch {
    if b.failed then b
    else if !Accepted(s) then b.(report := b.report.(denied := b.report.denied + [s]))
    else if HasNumber(b.phones, Last10(s)) then b.(report := b.report.(duplicates := b.report.duplicates + [s]))
    else if !HasClient(cs, id) then b.(failed := true)
    else b.(phones := b.phones + [PhoneRow(b.nextPhoneId, id, Last10(s))],
            nextPhoneId := b.nextPhoneId + 1,
            report := b.report.(inserted := b.report.inserted + [s]))
  }

  /** The loop of `add_phone` run over `items`, from `start`. */
  function RunBatch(cs: seq<ClientRow>, id: int, start: Batch, items: seq<string>): Batch
    decreases |items|
  {
    if items == [] then start
    else InsertStep(cs, id, RunBatch(cs, id, start, items[..|items| - 1]), items[|items| - 1])
  }

  /** The phone rows that storing `numbers` for client `id` appends, with ids from `first` on. */
  function PhoneRowsFor(first: int, id: int, numbers: seq<string>): (r: seq<PhoneRow>)
    ensures |r| == |numbers|
    ensures forall k | 0 <= k < |r| :: r[k] == PhoneRow(first + k, id, numbers[k])
  {
    seq(|numbers|, k requires 0 <= k < |numbers| => PhoneRow(first + k, id, numbers[k]))
  }

  /** The INSERT loop of `add_phone` for a known client id. */
  function StorePhones(t: Tables, id: int, items: seq<string>): Effect<PhoneReport> {
    var b := RunBatch(t.clients, id, Batch(t.phones, t.nextPhoneId, NO_PHONES, false), items);
    Effect(t.(phones := b.phones, nextPhoneId := b.nextPhoneId),
           if b.failed then Raised(ForeignKeyViolation) else Done(b.report))
  }

  /** `add_phone(params, _existance=known)` */
  function AddPhoneEffect(t: Tables, d: Descriptor, known: Option<int>): Effect<PhoneReport> {
    var r := if known.Some? && known.value != 0 then Resolved(known.value) else Resolve(t, d);
    if !(r.Resolved? && r.id != 0) then Effect(t, Refused(ClientUnresolved))
    else if d.newNumber.None? then Effect(t, Raised(NotIterable))
    else StorePhones(t, r.id, Items(d.newNumber.value))
  }

  // ---------------------------------------------------------------------------
  // add_client

  /** The new client's id, and the outcome of the cascaded `add_phone` when numbers were given. */
  datatype ClientReport = ClientReport(id: int, phones: Option<Outcome<PhoneReport>>)

  /** The dictionary `{'new_number': numbers}` that `add_client` passes on. */
  function Cascade(numbers: NumberArg): Descriptor {
    NO_INFO.(newNumber := Some(numbers))
  }

  /** `add_client(params)` */
  function AddClientEffect(t: Tables, d: Descriptor): Effect<ClientReport> {
    if d.name.None? || d.surname.None? || d.mail.None? then Effect(t, Refused(MissingRequiredField))
    else if HasMail(t.clients, d.mail.value) then Effect(t, Raised(UniqueViolation))
    else
      var id := t.nextClientId;
      var row := ClientRow(id, Title(d.name.value), Title(d.surname.value), d.mail.value);
      var t1 := t.(clients := t.clients + [row], nextClientId := id + 1);
      if NumberGiven(d) then
        var e := AddPhoneEffect(t1, Cascade(d.number.value), Some(id));
        Effect(e.tables, Done(ClientReport(id, Some(e.outcome))))
      else Effect(t1, Done(ClientReport(id, None)))
  }

  // ---------------------------------------------------------------------------
  // change_client

  /** One `new_*` entry of the descriptor. */
  datatype Update = NewName(name: string) | NewSurname(surname: string) | NewMail(mail: string)
                  | NewNumber(number: NumberArg)

  /** The name and surname entries, in that order. */
  function NameUpdates(d: Descriptor): seq<Update> {
    (if d.newName.Some? then [NewName(d.newName.value)] else []) +
    (if d.newSurname.Some? then [NewSurname(d.newSurname.value)] else [])
  }

  /** The client-table entries, in the order name, surname, mail. */
  function ClientUpdates(d: Descriptor): seq<Update> {
    NameUpdates(d) + (if d.newMail.Some? then [NewMail(d.newMail.value)] else [])
  }

  /** The `new_*` entries that `change_client` walks through, `new_number` last. */
  function Updates(d: Descriptor): seq<Update> {
    ClientUpdates(d) + (if d.newNumber.Some? then [NewNumber(d.newNumber.value)] else [])
  }

  function ApplyTo(c: ClientRow, u: Update): ClientRow {
    match u
    case NewName(v) => c.(name := v)
    case NewSurname(v) => c.(surname := v)
    case NewMail(v) => c.(mail := v)
    case NewNumber(_) => c
  }

  /** `UPDATE client SET <u> WHERE client_id = <id>` */
  function UpdateClients(cs: seq<ClientRow>, id: int, u: Update): (r: seq<ClientRow>)
    ensures |r| == |cs|
    ensures forall i | 0 <= i < |cs| :: r[i] == if cs[i].id == id then ApplyTo(cs[i], u) else cs[i]
  {
    seq(|cs|, i requires 0 <= i < |cs| => if cs[i].id == id then ApplyTo(cs[i], u) else cs[i])
  }

  /** Another client than `id` already has the address `mail`. */
  predicate MailTaken(cs: seq<ClientRow>, id: int, mail: string) {
    exists c | c in cs :: c.id != id && c.mail == mail
  }

  /** `SELECT phone_id FROM phone WHERE number = <x>` followed by `fetchone()`. */
  function FindPhone(ps: seq<PhoneRow>, x: string): (k: Option<nat>)
    ensures k.None? <==> !HasNumber(ps, x)
    ensures k.Some? ==> k.value < |ps| && ps[k.value].number == x &&
                        forall j | 0 <= j < k.value :: ps[j].number != x
  {
    if ps == [] then None
    else if ps[0].number == x then Some(0)
    else
      var k := FindPhone(ps[1..], x);
      assert forall p :: p in ps <==> p == ps[0] || p in ps[1..];
      if k.None? then None else Some(k.value + 1)
  }

  /** Another phone row than `ps[k]` already has the number `n`. */
  predicate NumberTaken(ps: seq<PhoneRow>, k: nat, n: string) {
    exists j | 0 <= j < |ps| :: j != k && ps[j].number == n
  }

  /** The state of `change_client`'s loop: the tables, the `flag` counter, and whether it ended in an error. */
  datatype Change = Change(tables: Tables, applied: nat, failed: bool)

  /**
   * A `new_number` entry. It goes to the phone table only when a truthy
   * `number` names the row to rewrite; otherwise it takes the client-table
   * branch, whose UPDATE names a column `client` does not have.
   */
  function NumberStep(d: Descriptor, c: Change, v: NumberArg): Change {
    var ps := c.tables.phones;
    if !NumberGiven(d) then c.(failed := true)
    else if !Accepted(Repr(v)) then c
    else
      match FindPhone(ps, Repr(d.number.value))
      case None => c
      case Some(k) =>
        var n := Last10(Repr(v));
        if NumberTaken(ps, k, n) then c
        else c.(tables := c.tables.(phones := ps[k := ps[k].(number := n)]), applied := c.applied + 1)
  }

  /** A `new_name`, `new_surname` or `new_mail` entry; an address another client has is refused. */
  function ClientStep(id: int, c: Change, u: Update): Change {
    var cs := c.tables.clients;
    if u.NewMail? && HasClient(cs, id) && MailTaken(cs, id, u.mail) then c
    else c.(tables := c.tables.(clients := UpdateClients(cs, id, u)), applied := c.applied + 1)
  }

  /** One entry of `change_client`'s loop; nothing happens after an entry has raised. */
  function ChangeStep(d: Descriptor, id: int, c: Change, u: Update): Change {
    if c.failed then c
    else if u.NewNumber? then NumberStep(d, c, u.number)
    else ClientStep(id, c, u)
  }

  /** The loop of `change_client` run over `us`, from `start`. */
  function RunChanges(d: Descriptor, id: int, start: Change, us: seq<Update>): Change
    decreases |us|
  {
    if us == [] then start
    else ChangeStep(d, id, RunChanges(d, id, start, us[..|us| - 1]), us[|us| - 1])
  }

  /** `change_client(params)`; a done outcome carries the final value of `flag`. */
  function ChangeClientEffect(t: Tables, d: Descriptor): Effect<nat> {
    var r := Resolve(t, d);
    if !(r.Resolved? && r.id != 0) then Effect(t, Refused(ClientUnresolved))
    else
      var c := RunChanges(d, r.id, Change(t, 0, false), Updates(d));
      Effect(c.tables, if c.failed then Raised(UndefinedColumn) else Done(c.applied))
  }

  // ---------------------------------------------------------------------------
  // delete_phone and delete_client

  /** The state of `delete_phone`'s loop: the phone table and the numbers removed so far. */
  datatype Deletion = Deletion(phones: seq<PhoneRow>, removed: seq<string>)

  /** `DELETE FROM phone WHERE number = <x> RETURNING number` and `fetchone()`. */
  function DeleteStep(s: Deletion, x: string): Deletion {
    if HasNumber(s.phones, x) then Deletion(DropPhones(s.phones, Numbered(x)), s.removed + [x]) else s
  }

  function RunDeletes(start: Deletion, xs: seq<string>): Deletion
    decreases |xs|
  {
    if xs == [] then start else DeleteStep(RunDeletes(start, xs[..|xs| - 1]), xs[|xs| - 1])
  }

  /** `delete_phone(params)`: the selective mode. */
  function DeletePhoneEffect(t: Tables, d: Descriptor): Effect<seq<string>> {
    if !NumberGiven(d) then Effect(t, Refused(MissingNumber))
    else
      var s := RunDeletes(Deletion(t.phones, []), Items(d.number.value));
      Effect(t.(phones := s.phones), Done(s.removed))
  }

  /** `delete_phone(client_id, _all_numbers=True)`: reports whether a row was deleted. */
  function DeletePhonesOfEffect(t: Tables, id: int): Effect<bool> {
    Effect(t.(phones := DropPhones(t.phones, OwnedBy(id))), Done(HasPhoneOf(t.phones, id)))
  }

  /** What `delete_client` finds: phones of the client, and the client row. */
  datatype DeleteReport = DeleteReport(phonesFound: bool, clientFound: bool)

  /**
   * `delete_client(params)`: the phones go first, then the client row. An
   * unresolved client reaches SQL as `client_id = None`, which the database
   * rejects.
   */
  function DeleteClientEffect(t: Tables, d: Descriptor): Effect<DeleteReport> {
    var r := Resolve(t, d);
    if !r.Resolved? then Effect(t, Raised(UndefinedColumn))
    else
      var e := DeletePhonesOfEffect(t, r.id);
      Effect(e.tables.(clients := DropClient(t.clients, r.id)),
             Done(DeleteReport(HasPhoneOf(t.phones, r.id), HasClient(t.clients, r.id))))
  }
}
