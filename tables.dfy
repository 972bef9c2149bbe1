/**
 * The two tables of the client database, `client` and `phone`, and the
 * constraints their schema declares: SERIAL primary keys, a unique e-mail
 * address per client, a unique phone number of exactly ten characters, and
 * a foreign key from every phone row to an existing client.
 */
module Tables {

  datatype Option<+T> = None | Some(value: T)

  /** One row of `client`. */
  datatype ClientRow = ClientRow(id: int, name: string, surname: string, mail: string)

  /** One row of `phone`. */
  datatype PhoneRow = PhoneRow(phoneId: int, clientId: int, number: string)

  /** Both tables in storage order, with the next value of each SERIAL sequence. */
  datatype Tables = Tables(clients: seq<ClientRow>, phones: seq<PhoneRow>,
                           nextClientId: int, nextPhoneId: int)

  /** The length the `phone.number` CHECK constraint demands. */
  const NUMBER_LENGTH := 10

  predicate HasClient(cs: seq<ClientRow>, id: int) {
    exists c | c in cs :: c.id == id
  }

  predicate HasMail(cs: seq<ClientRow>, mail: string) {
    exists c | c in cs :: c.mail == mail
  }

  predicate HasNumber(ps: seq<PhoneRow>, number: string) {
    exists p | p in ps :: p.number == number
  }

  predicate HasPhoneOf(ps: seq<PhoneRow>, id: int) {
    exists p | p in ps :: p.clientId == id
  }

  /** SERIAL primary key of `client` and UNIQUE on `mail`. */
  ghost predicate ClientKeys(cs: seq<ClientRow>, next: int) {
    (forall i | 0 <= i < |cs| :: 1 <= cs[i].id < next) &&
    (forall i, j | 0 <= i < j < |cs| :: cs[i].id != cs[j].id && cs[i].mail != cs[j].mail)
  }

  /** SERIAL primary key of `phone`, UNIQUE and CHECK on `number`. */
  ghost predicate PhoneKeys(ps: seq<PhoneRow>, next: int) {
    (forall i | 0 <= i < |ps| :: 1 <= ps[i].phoneId < next && |ps[i].number| == NUMBER_LENGTH) &&
    (forall i, j | 0 <= i < j < |ps| :: ps[i].phoneId != ps[j].phoneId && ps[i].number != ps[j].number)
  }

  /** `phone.client_id REFERENCES client(client_id)`. */
  ghost predicate References(cs: seq<ClientRow>, ps: seq<PhoneRow>) {
    forall p | p in ps :: HasClient(cs, p.clientId)
  }

  /** Everything the schema guarantees about a state of the database. */
  ghost predicate Consistent(t: Tables) {
    1 <= t.nextClientId && 1 <= t.nextPhoneId &&
    ClientKeys(t.clients, t.nextClientId) &&
    PhoneKeys(t.phones, t.nextPhoneId) &&
    References(t.clients, t.phones)
  }

  /** The numbers of the phone rows that belong to client `id`, in storage order. */
  function NumbersOf(ps: seq<PhoneRow>, id: int): seq<string> {
    if ps == [] then []
    else (if ps[0].clientId == id then [ps[0].number] else []) + NumbersOf(ps[1..], id)
  }

  /** The WHERE condition of a DELETE on `phone`. */
  datatype Criterion = OwnedBy(id: int) | Numbered(number: string)

  predicate Hits(c: Criterion, p: PhoneRow) {
    match c
    case OwnedBy(id) => p.clientId == id
    case Numbered(n) => p.number == n
  }

  /** The phone rows a `DELETE FROM phone WHERE <c>` leaves behind. */
  function DropPhones(ps: seq<PhoneRow>, c: Criterion): seq<PhoneRow> {
    if ps == [] then []
    else (if Hits(c, ps[0]) then [] else [ps[0]]) + DropPhones(ps[1..], c)
  }

  /** The client rows a `DELETE FROM client WHERE client_id = <id>` leaves behind. */
  function DropClient(cs: seq<ClientRow>, id: int): seq<ClientRow> {
    if cs == [] then []
    else (if cs[0].id == id then [] else [cs[0]]) + DropClient(cs[1..], id)
  }

  lemma {:induction false} NumbersOfMembers(ps: seq<PhoneRow>, id: int)
    ensures forall n :: n in NumbersOf(ps, id) <==> exists p | p in ps :: p.clientId == id && p.number == n
  {
    if ps != [] {
      NumbersOfMembers(ps[1..], id);
      assert forall p :: p in ps <==> p == ps[0] || p in ps[1..];
    }
  }

  lemma {:induction false} NumbersOfAppend(a: seq<PhoneRow>, b: seq<PhoneRow>, id: int)
    ensures NumbersOf(a + b, id) == NumbersOf(a, id) + NumbersOf(b, id)
  {
    if a != [] {
      assert (a + b)[1..] == a[1..] + b;
      NumbersOfAppend(a[1..], b, id);
    } else {
      assert a + b == b;
    }
  }

  lemma {:induction false} DropPhonesMembers(ps: seq<PhoneRow>, c: Criterion)
    ensures forall p :: p in DropPhones(ps, c) <==> p in ps && !Hits(c, p)
  {
    if ps != [] {
      DropPhonesMembers(ps[1..], c);
      assert forall p :: p in ps <==> p == ps[0] || p in ps[1..];
    }
  }

  lemma {:induction false} DropClientMembers(cs: seq<ClientRow>, id: int)
    ensures forall c :: c in DropClient(cs, id) <==> c in cs && c.id != id
  {
    if cs != [] {
      DropClientMembers(cs[1..], id);
      assert forall c :: c in cs <==> c == cs[0] || c in cs[1..];
    }
  }

  lemma PhoneKeysTail(ps: seq<PhoneRow>, next: int)
    requires ps != [] && PhoneKeys(ps, next)
    ensures PhoneKeys(ps[1..], next)
    ensures forall p | p in ps[1..] :: p.phoneId != ps[0].phoneId && p.number != ps[0].number
  {
    var tail := ps[1..];
    forall i, j | 0 <= i < j < |tail|
      ensures tail[i].phoneId != tail[j].phoneId && tail[i].number != tail[j].number
    {
      assert tail[i] == ps[i + 1] && tail[j] == ps[j + 1];
    }
    forall p | p in tail ensures p.phoneId != ps[0].phoneId && p.number != ps[0].number {
      var k :| 0 <= k < |tail| && tail[k] == p;
      assert ps[k + 1] == p;
    }
  }

  lemma PhoneKeysCons(p: PhoneRow, rest: seq<PhoneRow>, next: int)
    requires PhoneKeys(rest, next) && 1 <= p.phoneId < next && |p.number| == NUMBER_LENGTH
    requires forall q | q in rest :: q.phoneId != p.phoneId && q.number != p.number
    ensures PhoneKeys([p] + rest, next)
  {
    var r := [p] + rest;
    forall i, j | 0 <= i < j < |r| ensures r[i].phoneId != r[j].phoneId && r[i].number != r[j].number {
      if i == 0 {
        assert r[j] in rest;
      } else {
        assert r[i] == rest[i - 1] && r[j] == rest[j - 1];
      }
    }
  }

  /** Deleting phone rows keeps every key and CHECK constraint of `phone`. */
  lemma {:induction false} DropPhonesKeys(ps: seq<PhoneRow>, c: Criterion, next: int)
    requires PhoneKeys(ps, next)
    ensures PhoneKeys(DropPhones(ps, c), next)
  {
    if ps != [] {
      var tail := ps[1..];
      PhoneKeysTail(ps, next);
      DropPhonesKeys(tail, c, next);
      DropPhonesMembers(tail, c);
      if !Hits(c, ps[0]) {
        PhoneKeysCons(ps[0], DropPhones(tail, c), next);
      }
    }
  }

  lemma ClientKeysTail(cs: seq<ClientRow>, next: int)
    requires cs != [] && ClientKeys(cs, next)
    ensures ClientKeys(cs[1..], next)
    ensures forall c | c in cs[1..] :: c.id != cs[0].id && c.mail != cs[0].mail
  {
    var tail := cs[1..];
    forall i, j | 0 <= i < j < |tail|
      ensures tail[i].id != tail[j].id && tail[i].mail != tail[j].mail
    {
      assert tail[i] == cs[i + 1] && tail[j] == cs[j + 1];
    }
    forall c | c in tail ensures c.id != cs[0].id && c.mail != cs[0].mail {
      var k :| 0 <= k < |tail| && tail[k] == c;
      assert cs[k + 1] == c;
    }
  }

  lemma ClientKeysCons(c: ClientRow, rest: seq<ClientRow>, next: int)
    requires ClientKeys(rest, next) && 1 <= c.id < next
    requires forall e | e in rest :: e.id != c.id && e.mail != c.mail
    ensures ClientKeys([c] + rest, next)
  {
    var r := [c] + rest;
    forall i, j | 0 <= i < j < |r| ensures r[i].id != r[j].id && r[i].mail != r[j].mail {
      if i == 0 {
        assert r[j] in rest;
      } else {
        assert r[i] == rest[i - 1] && r[j] == rest[j - 1];
      }
    }
  }

  /** Deleting a client row keeps the key and UNIQUE constraints of `client`. */
  lemma {:induction false} DropClientKeys(cs: seq<ClientRow>, id: int, next: int)
    requires ClientKeys(cs, next)
    ensures ClientKeys(DropClient(cs, id), next)
  {
    if cs != [] {
      var tail := cs[1..];
      ClientKeysTail(cs, next);
      DropClientKeys(tail, id, next);
      DropClientMembers(tail, id);
      if cs[0].id != id {
        ClientKeysCons(cs[0], DropClient(tail, id), next);
      }
    }
  }
}
