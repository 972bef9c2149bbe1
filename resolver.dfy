/**
 * The identity resolver and the record assembler: `find_client` and its
 * `_find_client_w_*` helpers. They only read the tables, so they are
 * functions of a snapshot of both tables.
 */
module Resolver {
  import opened Tables
  import opened Descriptors

  /** The SELECT that `find_client` issues, chosen from the descriptor. */
  datatype Query = ById(id: int) | ByMail(mail: string) | ByNumber(number: string)
                 | ByName(name: string, surname: string)

  /** The WHERE clause of a SELECT on `client LEFT JOIN phone` that tests client columns. */
  datatype ClientFilter = IdIs(id: int) | MailIs(mail: string) | NameIs(name: string, surname: string)

  predicate Selects(f: ClientFilter, c: ClientRow) {
    match f
    case IdIs(id) => c.id == id
    case MailIs(m) => c.mail == m
    case NameIs(n, s) => c.name == n && c.surname == s
  }

  /** A row `(client_id, name, surname, mail, number)`; `number` is NULL for a client without phones. */
  datatype JoinRow = JoinRow(client: ClientRow, number: Option<string>)

  /** Which lookup is made: client_id, then mail, then number, then name with surname. */
  function Strategy(d: Descriptor): Option<Query> {
    if IdGiven(d) then Some(ById(d.clientId.value))
    else if Given(d.mail) then Some(ByMail(d.mail.value))
    else if NumberGiven(d) then Some(ByNumber(First(d.number.value)))
    else if Given(d.name) && Given(d.surname) then Some(ByName(d.name.value, d.surname.value))
    else None
  }

  /** The joined rows of client `c` that have a phone, in storage order. */
  function OwnRows(c: ClientRow, ps: seq<PhoneRow>): seq<JoinRow> {
    if ps == [] then []
    else (if ps[0].clientId == c.id then [JoinRow(c, Some(ps[0].number))] else []) + OwnRows(c, ps[1..])
  }

  /** The LEFT JOIN rows of one client: its phones, or a single row with a NULL phone. */
  function JoinClient(c: ClientRow, ps: seq<PhoneRow>): (rows: seq<JoinRow>)
    ensures rows != []
  {
    var own := OwnRows(c, ps);
    if own == [] then [JoinRow(c, None)] else own
  }

  /** The result of `SELECT ... FROM client LEFT JOIN phone ... WHERE <f>`. */
  function SelectRows(cs: seq<ClientRow>, ps: seq<PhoneRow>, f: ClientFilter): seq<JoinRow> {
    if cs == [] then []
    else (if Selects(f, cs[0]) then JoinClient(cs[0], ps) else []) + SelectRows(cs[1..], ps, f)
  }

  /** The client of the first joined row whose phone number is `x` (`_find_client_w_numbers`). */
  function Owner(cs: seq<ClientRow>, ps: seq<PhoneRow>, x: string): Option<int> {
    if cs == [] then None
    else if x in NumbersOf(ps, cs[0].id) then Some(cs[0].id)
    else Owner(cs[1..], ps, x)
  }

  /** The rows a `_find_client_w_*` helper returns; `[]` stands for its `None`. */
  function Lookup(t: Tables, q: Query): seq<JoinRow> {
    match q
    case ById(id) => SelectRows(t.clients, t.phones, IdIs(id))
    case ByMail(m) => SelectRows(t.clients, t.phones, MailIs(m))
    case ByName(n, s) => SelectRows(t.clients, t.phones, NameIs(n, s))
    case ByNumber(x) =>
      match Owner(t.clients, t.phones, x)
      case None => []
      case Some(id) => SelectRows(t.clients, t.phones, IdIs(id))
  }

  datatype Resolution = Resolved(id: int) | NotFound | InsufficientData

  /** `find_client(params, _id_only=True)` */
  function Resolve(t: Tables, d: Descriptor): Resolution {
    if IdGiven(d) then Resolved(d.clientId.value)
    else
      match Strategy(d)
      case None => InsufficientData
      case Some(q) =>
        var rows := Lookup(t, q);
        if rows == [] then NotFound else Resolved(rows[0].client.id)
  }

  /** The dictionary `find_client` returns. */
  datatype View = View(clientId: int, name: string, surname: string, mail: string, numbers: seq<string>)

  /** `[tup[4] for tup in info if tup[4]]` */
  function RowNumbers(rows: seq<JoinRow>): seq<string> {
    if rows == [] then []
    else (if rows[0].number.Some? && rows[0].number.value != "" then [rows[0].number.value] else [])
         + RowNumbers(rows[1..])
  }

  /** The view built from the first row's client columns and every row's phone. */
  function Assemble(rows: seq<JoinRow>): Option<View> {
    if rows == [] then None
    else
      var c := rows[0].client;
      Some(View(c.id, c.name, c.surname, c.mail, RowNumbers(rows)))
  }

  /** `find_client(params)` with `_id_only=False` */
  function Find(t: Tables, d: Descriptor): Option<View> {
    match Strategy(d)
    case None => None
    case Some(q) => Assemble(Lookup(t, q))
  }

  /** The view of one client: its columns and the numbers of all its phones. */
  function ViewOf(c: ClientRow, ps: seq<PhoneRow>): View {
    View(c.id, c.name, c.surname, c.mail, NumbersOf(ps, c.id))
  }

  /** The phone numbers of every selected client, client after client. */
  function SelectedNumbers(cs: seq<ClientRow>, ps: seq<PhoneRow>, f: ClientFilter): seq<string> {
    if cs == [] then []
    else (if Selects(f, cs[0]) then NumbersOf(ps, cs[0].id) else []) + SelectedNumbers(cs[1..], ps, f)
  }

  // ---------------------------------------------------------------------------
  // The joined rows

  lemma {:induction false} RowNumbersAppend(a: seq<JoinRow>, b: seq<JoinRow>)
    ensures RowNumbers(a + b) == RowNumbers(a) + RowNumbers(b)
  {
    if a != [] {
      assert (a + b)[1..] == a[1..] + b;
      RowNumbersAppend(a[1..], b);
    } else {
      assert a + b == b;
    }
  }

  lemma {:induction false} OwnRowsNumbers(c: ClientRow, ps: seq<PhoneRow>)
    requires forall p | p in ps :: p.number != ""
    ensures RowNumbers(OwnRows(c, ps)) == NumbersOf(ps, c.id)
    ensures OwnRows(c, ps) == [] <==> NumbersOf(ps, c.id) == []
  {
    if ps != [] {
      assert ps[0] in ps;
      OwnRowsNumbers(c, ps[1..]);
      var head := if ps[0].clientId == c.id then [JoinRow(c, Some(ps[0].number))] else [];
      RowNumbersAppend(head, OwnRows(c, ps[1..]));
    }
  }

  /** The NULL phone of a client without phones does not reach the numbers list. */
  lemma JoinClientNumbers(c: ClientRow, ps: seq<PhoneRow>)
    requires forall p | p in ps :: p.number != ""
    ensures RowNumbers(JoinClient(c, ps)) == NumbersOf(ps, c.id)
    ensures forall r | r in JoinClient(c, ps) :: r.client == c
  {
    OwnRowsNumbers(c, ps);
    OwnRowsClient(c, ps);
  }

  lemma {:induction false} OwnRowsClient(c: ClientRow, ps: seq<PhoneRow>)
    ensures forall r | r in OwnRows(c, ps) :: r.client == c
  {
    if ps != [] {
      OwnRowsClient(c, ps[1..]);
    }
  }

  /** The numbers list collects the phones of every selected client. */
  lemma {:induction false} SelectRowsNumbers(cs: seq<ClientRow>, ps: seq<PhoneRow>, f: ClientFilter)
    requires forall p | p in ps :: p.number != ""
    ensures RowNumbers(SelectRows(cs, ps, f)) == SelectedNumbers(cs, ps, f)
  {
    if cs != [] {
      SelectRowsNumbers(cs[1..], ps, f);
      var head := if Selects(f, cs[0]) then JoinClient(cs[0], ps) else [];
      RowNumbersAppend(head, SelectRows(cs[1..], ps, f));
      if Selects(f, cs[0]) {
        JoinClientNumbers(cs[0], ps);
      }
    }
  }

  /** No rows exactly when no client is selected. */
  lemma {:induction false} SelectRowsEmpty(cs: seq<ClientRow>, ps: seq<PhoneRow>, f: ClientFilter)
    ensures SelectRows(cs, ps, f) == [] <==> forall c | c in cs :: !Selects(f, c)
  {
    if cs != [] {
      SelectRowsEmpty(cs[1..], ps, f);
      assert forall c :: c in cs <==> c == cs[0] || c in cs[1..];
    }
  }

  /** The first row belongs to the first selected client in storage order. */
  lemma {:induction false} SelectRowsFirst(cs: seq<ClientRow>, ps: seq<PhoneRow>, f: ClientFilter, k: nat)
    requires k < |cs| && Selects(f, cs[k])
    requires forall j | 0 <= j < k :: !Selects(f, cs[j])
    ensures SelectRows(cs, ps, f) != [] && SelectRows(cs, ps, f)[0].client == cs[k]
  {
    if k == 0 {
      JoinClientNumbersClient(cs[0], ps);
    } else {
      assert !Selects(f, cs[0]);
      forall j | 0 <= j < k - 1 ensures !Selects(f, cs[1..][j]) {
        assert cs[1..][j] == cs[j + 1];
      }
      SelectRowsFirst(cs[1..], ps, f, k - 1);
    }
  }

  lemma JoinClientNumbersClient(c: ClientRow, ps: seq<PhoneRow>)
    ensures JoinClient(c, ps)[0].client == c
  {
    OwnRowsClient(c, ps);
    if OwnRows(c, ps) != [] {
      assert OwnRows(c, ps)[0] in OwnRows(c, ps);
    }
  }

  /** When only `cs[k]` is selected, the rows are that client's LEFT JOIN rows. */
  lemma {:induction false} SelectOnly(cs: seq<ClientRow>, ps: seq<PhoneRow>, f: ClientFilter, k: nat)
    requires k < |cs| && Selects(f, cs[k])
    requires forall j | 0 <= j < |cs| && j != k :: !Selects(f, cs[j])
    ensures SelectRows(cs, ps, f) == JoinClient(cs[k], ps)
  {
    if k == 0 {
      SelectRowsEmpty(cs[1..], ps, f);
      forall c | c in cs[1..] ensures !Selects(f, c) {
        var j :| 0 <= j < |cs[1..]| && cs[1..][j] == c;
        assert cs[j + 1] == c;
      }
    } else {
      forall j | 0 <= j < |cs[1..]| && j != k - 1 ensures !Selects(f, cs[1..][j]) {
        assert cs[1..][j] == cs[j + 1];
      }
      SelectOnly(cs[1..], ps, f, k - 1);
    }
  }

  /** Under the schema, selecting the unique client `cs[k]` assembles exactly its view. */
  lemma SingleClientView(t: Tables, f: ClientFilter, k: nat)
    requires Consistent(t)
    requires k < |t.clients| && Selects(f, t.clients[k])
    requires forall j | 0 <= j < |t.clients| && j != k :: !Selects(f, t.clients[j])
    ensures Assemble(SelectRows(t.clients, t.phones, f)) == Some(ViewOf(t.clients[k], t.phones))
  {
    SelectOnly(t.clients, t.phones, f, k);
    forall p | p in t.phones ensures p.number != "" {
      var i :| 0 <= i < |t.phones| && t.phones[i] == p;
    }
    JoinClientNumbers(t.clients[k], t.phones);
    JoinClientNumbersClient(t.clients[k], t.phones);
  }

  /** Looking a client up by its id, under the schema. */
  lemma ViewById(t: Tables, id: int)
    requires Consistent(t)
    ensures Assemble(SelectRows(t.clients, t.phones, IdIs(id))) == None <==> !HasClient(t.clients, id)
    ensures forall c | c in t.clients && c.id == id ::
              Assemble(SelectRows(t.clients, t.phones, IdIs(id))) == Some(ViewOf(c, t.phones))
  {
    SelectRowsEmpty(t.clients, t.phones, IdIs(id));
    forall c | c in t.clients && c.id == id
      ensures Assemble(SelectRows(t.clients, t.phones, IdIs(id))) == Some(ViewOf(c, t.phones))
    {
      var k :| 0 <= k < |t.clients| && t.clients[k] == c;
      SingleClientView(t, IdIs(id), k);
    }
  }

  // ---------------------------------------------------------------------------
  // Lookup by phone number

  lemma {:induction false} OwnerFinds(cs: seq<ClientRow>, ps: seq<PhoneRow>, x: string, id: int)
    requires HasClient(cs, id)
    requires forall c :: x in NumbersOf(ps, c) <==> c == id
    ensures Owner(cs, ps, x) == Some(id)
  {
    if x !in NumbersOf(ps, cs[0].id) {
      var c :| c in cs && c.id == id;
      assert c in cs[1..] by {
        assert c != cs[0];
        assert forall e :: e in cs <==> e == cs[0] || e in cs[1..];
      }
      OwnerFinds(cs[1..], ps, x, id);
    }
  }

  lemma {:induction false} OwnerMisses(cs: seq<ClientRow>, ps: seq<PhoneRow>, x: string)
    requires forall c :: x !in NumbersOf(ps, c)
    ensures Owner(cs, ps, x) == None
  {
    if cs != [] {
      OwnerMisses(cs[1..], ps, x);
    }
  }

  /** Under the schema the first joined row with number `x` is the row of `x`'s phone. */
  lemma OwnerOf(t: Tables, x: string)
    requires Consistent(t)
    ensures Owner(t.clients, t.phones, x) == None <==> !HasNumber(t.phones, x)
    ensures forall p | p in t.phones && p.number == x :: Owner(t.clients, t.phones, x) == Some(p.clientId)
  {
    var ps := t.phones;
    forall c ensures x in NumbersOf(ps, c) <==> exists p | p in ps :: p.clientId == c && p.number == x {
      NumbersOfMembers(ps, c);
    }
    if HasNumber(ps, x) {
      var p :| p in ps && p.number == x;
      forall q | q in ps && q.number == x ensures q == p {
        var i :| 0 <= i < |ps| && ps[i] == p;
        var j :| 0 <= j < |ps| && ps[j] == q;
        assert i == j;
      }
      OwnerFinds(t.clients, ps, x, p.clientId);
    } else {
      OwnerMisses(t.clients, ps, x);
    }
  }

  // ---------------------------------------------------------------------------
  // Resolution priority

  /** An explicit client_id is returned as it is: no table is consulted. */
  lemma ExplicitIdWins(t1: Tables, t2: Tables, d: Descriptor)
    requires IdGiven(d)
    ensures Resolve(t1, d) == Resolve(t2, d) == Resolved(d.clientId.value)
  {
  }

  /**
   * Keys below the one that decides the strategy are never consulted:
   * changing them changes neither the resolved id nor the view, even when
   * the deciding key matches nothing.
   */
  lemma LowerKeysIgnored(t: Tables, d: Descriptor, e: Descriptor)
    requires e.clientId == d.clientId
    requires !IdGiven(d) ==> e.mail == d.mail
    requires !IdGiven(d) && !Given(d.mail) ==> e.number == d.number
    requires !IdGiven(d) && !Given(d.mail) && !NumberGiven(d) ==> e.name == d.name && e.surname == d.surname
    ensures Resolve(t, d) == Resolve(t, e)
    ensures Find(t, d) == Find(t, e)
  {
  }

  /** Without any usable key nothing is looked up and nothing is found. */
  lemma NoKeyNoLookup(t1: Tables, t2: Tables, d: Descriptor)
    ensures Resolve(t1, d) == InsufficientData <==>
              !IdGiven(d) && !Given(d.mail) && !NumberGiven(d) && !(Given(d.name) && Given(d.surname))
    ensures Resolve(t1, d) == InsufficientData ==> Resolve(t2, d) == InsufficientData && Find(t1, d) == None
  {
  }

  /** Resolution by a present e-mail address, under the schema. */
  lemma ResolveByMail(t: Tables, d: Descriptor)
    requires Consistent(t)
    requires !IdGiven(d) && Given(d.mail)
    ensures Resolve(t, d) == NotFound <==> !HasMail(t.clients, d.mail.value)
    ensures Find(t, d) == None <==> !HasMail(t.clients, d.mail.value)
    ensures forall c | c in t.clients && c.mail == d.mail.value ::
              Resolve(t, d) == Resolved(c.id) && Find(t, d) == Some(ViewOf(c, t.phones))
  {
    var m := d.mail.value;
    SelectRowsEmpty(t.clients, t.phones, MailIs(m));
    forall c | c in t.clients && c.mail == m
      ensures Resolve(t, d) == Resolved(c.id) && Find(t, d) == Some(ViewOf(c, t.phones))
    {
      var k :| 0 <= k < |t.clients| && t.clients[k] == c;
      SingleClientView(t, MailIs(m), k);
    }
  }

  /**
   * Resolution by phone number, under the schema: the first listed number
   * is searched, and the view is rebuilt by the owner's id, so it lists
   * every number of that owner.
   */
  lemma ResolveByNumber(t: Tables, d: Descriptor)
    requires Consistent(t)
    requires !IdGiven(d) && !Given(d.mail) && NumberGiven(d)
    ensures Resolve(t, d) == NotFound <==> !HasNumber(t.phones, First(d.number.value))
    ensures Find(t, d) == None <==> !HasNumber(t.phones, First(d.number.value))
    ensures forall p | p in t.phones && p.number == First(d.number.value) ::
              Resolve(t, d) == Resolved(p.clientId)
    ensures forall c | c in t.clients && First(d.number.value) in NumbersOf(t.phones, c.id) ::
              Find(t, d) == Some(ViewOf(c, t.phones))
  {
    var x := First(d.number.value);
    OwnerOf(t, x);
    forall c | c in t.clients && x in NumbersOf(t.phones, c.id)
      ensures Find(t, d) == Some(ViewOf(c, t.phones))
    {
      NumbersOfMembers(t.phones, c.id);
      var p :| p in t.phones && p.clientId == c.id && p.number == x;
      ViewById(t, c.id);
    }
    var o := Owner(t.clients, t.phones, x);
    if o.Some? {
      var p :| p in t.phones && p.number == x;
      assert References(t.clients, t.phones);
      assert HasClient(t.clients, p.clientId);
      ViewById(t, o.value);
    }
  }

  /**
   * Resolution by name and surname: the first client in storage order with
   * both wins; the view takes that client's columns but the numbers of every
   * client with the same name and surname.
   */
  lemma ResolveByName(t: Tables, d: Descriptor, k: nat)
    requires !IdGiven(d) && !Given(d.mail) && !NumberGiven(d) && Given(d.name) && Given(d.surname)
    requires forall p | p in t.phones :: p.number != ""
    requires k < |t.clients| && t.clients[k].name == d.name.value && t.clients[k].surname == d.surname.value
    requires forall j | 0 <= j < k :: !(t.clients[j].name == d.name.value && t.clients[j].surname == d.surname.value)
    ensures Resolve(t, d) == Resolved(t.clients[k].id)
    ensures Find(t, d).Some?
    ensures Find(t, d).value.clientId == t.clients[k].id && Find(t, d).value.mail == t.clients[k].mail
    ensures Find(t, d).value.name == d.name.value && Find(t, d).value.surname == d.surname.value
    ensures Find(t, d).value.numbers == SelectedNumbers(t.clients, t.phones, NameIs(d.name.value, d.surname.value))
  {
    var f := NameIs(d.name.value, d.surname.value);
    forall j | 0 <= j < k ensures !Selects(f, t.clients[j]) { }
    SelectRowsFirst(t.clients, t.phones, f, k);
    SelectRowsNumbers(t.clients, t.phones, f);
  }

  /** Nobody with that name and surname: not found. */
  lemma ResolveByNameMisses(t: Tables, d: Descriptor)
    requires !IdGiven(d) && !Given(d.mail) && !NumberGiven(d) && Given(d.name) && Given(d.surname)
    requires forall c | c in t.clients :: !(c.name == d.name.value && c.surname == d.surname.value)
    ensures Resolve(t, d) == NotFound && Find(t, d) == None
  {
    SelectRowsEmpty(t.clients, t.phones, NameIs(d.name.value, d.surname.value));
  }

  /** `find_client` by client_id, under the schema. */
  lemma FindById(t: Tables, d: Descriptor)
    requires Consistent(t) && IdGiven(d)
    ensures Find(t, d) == None <==> !HasClient(t.clients, d.clientId.value)
    ensures forall c | c in t.clients && c.id == d.clientId.value :: Find(t, d) == Some(ViewOf(c, t.phones))
  {
    ViewById(t, d.clientId.value);
  }

  // ---------------------------------------------------------------------------
  // The two modes of find_client agree

  /** Every joined row belongs to a client row that the WHERE clause selects. */
  lemma {:induction false} SelectRowsClients(cs: seq<ClientRow>, ps: seq<PhoneRow>, f: ClientFilter)
    ensures forall r | r in SelectRows(cs, ps, f) :: r.client in cs && Selects(f, r.client)
  {
    if cs != [] {
      SelectRowsClients(cs[1..], ps, f);
      OwnRowsClient(cs[0], ps);
    }
  }

  /** The rows of every helper belong to client rows of the table. */
  lemma LookupClients(t: Tables, q: Query)
    ensures forall r | r in Lookup(t, q) :: r.client in t.clients
  {
    match q
    case ById(id) => SelectRowsClients(t.clients, t.phones, IdIs(id));
    case ByMail(m) => SelectRowsClients(t.clients, t.phones, MailIs(m));
    case ByName(n, s) => SelectRowsClients(t.clients, t.phones, NameIs(n, s));
    case ByNumber(x) =>
      match Owner(t.clients, t.phones, x)
      case None =>
      case Some(id) => SelectRowsClients(t.clients, t.phones, IdIs(id));
  }

  /**
   * `find_client` with `_id_only=True` is `tmp[0]` of the rows that the
   * full mode assembles: whenever a dictionary is found, its `client_id`
   * is the resolved id, and its columns are those of a stored client row.
   * Without a truthy `client_id`, the id is resolved exactly when a
   * dictionary is found, and it names a stored client; a truthy
   * `client_id` is returned even when no client row has it.
   */
  lemma FindAgreesWithResolve(t: Tables, d: Descriptor)
    ensures Resolve(t, d) == InsufficientData <==> Strategy(d).None?
    ensures Find(t, d).Some? ==> Resolve(t, d) == Resolved(Find(t, d).value.clientId)
    ensures Find(t, d).Some? ==>
              var v := Find(t, d).value;
              ClientRow(v.clientId, v.name, v.surname, v.mail) in t.clients
    ensures !IdGiven(d) ==> (Find(t, d).None? <==> !Resolve(t, d).Resolved?)
    ensures !IdGiven(d) && Resolve(t, d).Resolved? ==> HasClient(t.clients, Resolve(t, d).id)
  {
    if Strategy(d).Some? {
      var q := Strategy(d).value;
      var rows := Lookup(t, q);
      LookupClients(t, q);
      if rows != [] {
        assert rows[0] in rows;
        if IdGiven(d) {
          SelectRowsClients(t.clients, t.phones, IdIs(d.clientId.value));
        }
      }
    }
  }
}
