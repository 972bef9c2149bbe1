# PySQL phone book: a Dafny model

`main.py` keeps a phone book of clients in two PostgreSQL tables. `client`
holds an id from a SERIAL column, the name, the surname and a unique e-mail
address. `phone` holds an id from a SERIAL column, the owning client's id and
a unique ten-character number. A `PySQL` object offers these operations on
the tables:

- add a client, optionally with phones;
- add phones to a client;
- change a client;
- delete phones, either chosen by number or all of one client's phones;
- delete a client;
- find a client.

Every operation except `delete_phone(..., _all_numbers=True)`, which
receives a bare client id, takes a partially filled `params` dictionary. Only
`find_client`, and the operations that call it to identify a client
(`add_phone`, `change_client` and `delete_client`), pick the client by the
first usable key, in this order: `client_id`, `mail`, `number`, then `name`
with `surname`. `add_client` takes the new client's columns as given.
Selective `delete_phone` deletes by number without identifying anyone.

This project models:

- the identity resolver, `find_client(..., _id_only=True)`;
- the record assembler, `find_client` over the `_find_client_w_*` helpers;
- the phone normaliser, which accepts at least ten characters and stores
  the last ten;
- Python's `str.title`;
- the five mutating operations, including the cascade from `add_client`
  into `add_phone`;
- the constraints of the schema.

Two behaviours of the code are easy to miss:

- A `new_number` without a truthy `number` is not skipped. It takes the
  client-table branch of `change_client` and raises `UndefinedColumn`. Any
  updates made before it stay committed, because each statement is
  committed on its own.
- Errors the code does not catch are not swallowed. The model reports them
  as `Raised`:
  - a duplicate address in `add_client`;
  - a foreign-key failure in `add_phone` for an id that has no client row;
  - a missing `new_number` in `add_phone`;
  - an unresolved client in `delete_client`, whose SQL ends up as
    `client_id = None`.

The modules are:

- `Tables`: the rows, the two tables, and the schema invariant
  `Consistent`. `Consistent` says:
  - ids are unique and below their SERIAL counters;
  - addresses are unique;
  - numbers are unique and ten characters long;
  - every phone row references an existing client.
- `Descriptors`: `params` as a record of optional fields, with Python
  truthiness spelled out.
- `Normalizer` and `TitleCase`: the phone normaliser and `str.title`.
- `Resolver`: the SELECTs of the lookup helpers as functions over the
  tables, plus `Resolve` (`_id_only=True`) and `Find` (the assembled
  dictionary).
- `Mutations`: each mutating operation as a function from the old tables
  to the new tables and an outcome. Each loop of the source is a step
  function run over a prefix of its items.
- `AddProperties`, `ChangeProperties`, `DeleteProperties`: what these
  functions promise.
- `Store`: a class holding the two tables as fields, changed in place.
  Each public method (one per operation) requires and keeps `Consistent`,
  and is proved to end in exactly the state and outcome that `Mutations`
  gives. The loops of `add_phone`, `change_client` and selective
  `delete_phone` run in place. The helper methods `InsertPhones` and
  `ApplyEntries` are proved to match a whole run of their loop, and
  `ApplyEntry`, `RewritePhone` and `UpdateClient` one step of it.

## Model

| member | source | states |
|---|---|---|
| Tables.ClientKeys | main.py:97-101 | client ids unique and below the SERIAL counter, addresses unique; kept by every operation, as the `KeepsSchema` lemmas state |
| Tables.PhoneKeys | main.py:104-107 | phone ids unique and below the counter, numbers unique and ten characters long; kept by every operation, as the `KeepsSchema` lemmas state |
| Tables.References | main.py:106 | every phone row references a client row; kept by every operation, as the `KeepsSchema` lemmas state |
| Tables.Consistent | main.py:97-107 | the schema's constraints together; kept by every `Store` method |
| Tables.NumbersOf | main.py:351 | a client's numbers in table order; stated by Tables.NumbersOfMembers |
| Tables.DropPhones | main.py:264-268 | a DELETE on `phone`; stated by Tables.DropPhonesMembers and Tables.DropPhonesKeys |
| Tables.DropClient | main.py:306-309 | a DELETE on `client`; stated by Tables.DropClientMembers and Tables.DropClientKeys |
| Tables.NumbersOfMembers | main.py:351 | the numbers listed for a client are exactly the numbers of its phone rows |
| Tables.DropPhonesMembers | main.py:264-268 | a DELETE on `phone` keeps exactly the rows the WHERE clause does not hit |
| Tables.DropClientMembers | main.py:306-309 | a DELETE on `client` keeps exactly the rows with another id |
| Tables.DropPhonesKeys | main.py:104-107 | deleting phone rows keeps phone ids and numbers unique and below the counter |
| Tables.DropClientKeys | main.py:97-101 | deleting a client row keeps client ids and addresses unique and below the counter |
| Descriptors.IdGiven | main.py:331-333 | the truthiness of `client_id`; that a truthy id wins over every other key is stated by Resolver.ExplicitIdWins and Resolver.LowerKeysIgnored |
| Descriptors.Given | main.py:335-340 | the truthiness of a text key; its role in the lookup order is stated by Resolver.NoKeyNoLookup and Resolver.ResolveByMail |
| Descriptors.Truthy | main.py:141 | the truthiness of a number value; that a falsy one adds no phones is stated by AddProperties.AddClientInserts |
| Descriptors.NumberGiven | main.py:254-261 | `number` is truthy; that without it selective deletion does nothing is stated by DeleteProperties.DeletePhoneMeaning |
| Descriptors.Items | main.py:159-160 | the candidates the loops walk; what the loops do with them is stated by AddProperties.StorePhonesMeaning and DeleteProperties.DeletePhoneMeaning |
| Descriptors.First | main.py:338 | the number searched for; that the lookup finds its owner is stated by Resolver.ResolveByNumber |
| Descriptors.Repr | main.py:205-212 | `str` of an integer is its digits; `str` of a list begins with `[`, so it never matches a ten-digit number |
| Normalizer.Last10 | main.py:169 | the stored form is the text's last ten characters, or the whole text when shorter |
| Normalizer.Accepted | main.py:165 | the length test; that an accepted candidate fits the CHECK constraint is stated by Normalizer.StoredFormFits, and that short candidates are denied by AddProperties.BatchSorting |
| Normalizer.Normalized | main.py:164-172 | the stored forms of a batch; their meaning is stated by Normalizer.NormalizedFits |
| Normalizer.NormalizedFits | main.py:165-169 | every stored form of accepted candidates is ten characters long and accepted again, and storing the stored forms changes nothing |
| Normalizer.StoredFormFits | main.py:107 | the stored form of an accepted number is ten characters long, as the CHECK constraint requires |
| Normalizer.Last10Idempotent | main.py:169 | normalising twice equals normalising once; a ten-character number is stored unchanged |
| Normalizer.Last10OfTwelve | main.py:165-169 | a twelve-digit number loses its first two digits |
| TitleCase.ToUpper | main.py:134 | upper-casing maps each lower-case letter to the upper-case letter at the same place in the alphabet and keeps every other character |
| TitleCase.ToLower | main.py:134 | lower-casing maps each upper-case letter to the lower-case letter at the same place in the alphabet and keeps every other character |
| TitleCase.TitleFrom | main.py:134 | the left-to-right scan of `title()`; stated character by character by TitleCase.TitleFromAt |
| TitleCase.TitleFromAt | main.py:134 | the scan keeps the length, lowers a character after a cased one and raises every other |
| TitleCase.Title | main.py:134 | `str.title`; stated by TitleCase.TitleAt and TitleCase.TitleIdempotent |
| TitleCase.TitleAt | main.py:134 | `title()` has the same length; a character after a cased one is lowered, every other character is raised |
| TitleCase.TitleIdempotent | main.py:134 | title-casing twice equals title-casing once |
| TitleCase.TitleOfIvan | main.py:134 | "ivan" and "petrov" become "Ivan" and "Petrov" |
| Resolver.Strategy | main.py:331-345 | the lookup order; stated by Resolver.NoKeyNoLookup and Resolver.LowerKeysIgnored |
| Resolver.Resolve | main.py:331-349 | `find_client(..., _id_only=True)`; stated by Resolver.ExplicitIdWins, Resolver.ResolveByMail, Resolver.ResolveByNumber, Resolver.ResolveByName and Resolver.FindAgreesWithResolve |
| Resolver.Find | main.py:317-353 | `find_client` with the assembled dictionary; stated by Resolver.FindById, Resolver.ResolveByMail, Resolver.ResolveByNumber, Resolver.ResolveByName and Resolver.FindAgreesWithResolve |
| Resolver.Lookup | main.py:355-422 | the rows returned by the `_find_client_w_*` helpers; stated by Resolver.LookupClients and the `ResolveBy` lemmas |
| Resolver.SelectRows | main.py:362-367 | the rows of a SELECT on `client LEFT JOIN phone`; stated by Resolver.SelectRowsEmpty, Resolver.SelectRowsFirst, Resolver.SelectOnly and Resolver.SelectRowsClients |
| Resolver.Owner | main.py:379-387 | the client of the first row holding a number; stated by Resolver.OwnerOf |
| Resolver.Assemble | main.py:346-353 | the dictionary built from the helper's rows; stated by Resolver.SingleClientView and Resolver.ViewById |
| Resolver.RowNumbers | main.py:351 | the non-NULL numbers of the rows; stated by Resolver.JoinClientNumbers and Resolver.SelectRowsNumbers |
| Resolver.JoinClient | main.py:363-366 | a LEFT JOIN yields at least one row per selected client, even one without phones |
| Resolver.RowNumbersAppend | main.py:351 | the number list of concatenated joined rows is the concatenation of their number lists |
| Resolver.JoinClientNumbers | main.py:351 | the numbers collected from one client's joined rows are exactly that client's phone numbers, in table order |
| Resolver.SelectRowsNumbers | main.py:346-351 | the numbers collected from a SELECT are the phone numbers of every selected client, client after client |
| Resolver.SelectRowsEmpty | main.py:368-370 | a helper returns nothing exactly when no client row matches its WHERE clause |
| Resolver.SelectRowsFirst | main.py:347 | the first joined row belongs to the first client row that matches |
| Resolver.SelectOnly | main.py:362-369 | when exactly one client matches, the SELECT returns exactly that client's joined rows |
| Resolver.SingleClientView | main.py:346-353 | when exactly one client matches, the dictionary holds that client's columns and all of its numbers |
| Resolver.ViewById | main.py:355-370 | a lookup by id finds nothing exactly when no client has the id, and otherwise gives that client's full view |
| Resolver.OwnerFinds | main.py:379-387 | the number lookup names the one client that owns the number |
| Resolver.OwnerMisses | main.py:385-388 | the number lookup finds nothing when no client owns the number |
| Resolver.OwnerOf | main.py:372-388 | on consistent tables, the number lookup finds nothing exactly when the number is absent, and otherwise finds the owner of its phone row |
| Resolver.ExplicitIdWins | main.py:331-332 | a truthy `client_id` is returned as it is, whatever the tables hold |
| Resolver.LowerKeysIgnored | main.py:333-341 | keys of lower priority than the first usable key change neither the id nor the dictionary |
| Resolver.NoKeyNoLookup | main.py:340-345 | no id, mail, number or name with surname means insufficient data and no dictionary, exactly |
| Resolver.ResolveByMail | main.py:335-336 | by mail: not found exactly when no client has the address; otherwise that client's id and full view |
| Resolver.ResolveByNumber | main.py:337-339 | by number: not found exactly when no phone has the first number; otherwise the owning client's id and full view |
| Resolver.ResolveByName | main.py:340-341 | by name: the first matching client's id and columns, with the numbers of every client sharing the name and surname |
| Resolver.ResolveByNameMisses | main.py:420-422 | by name with no client of that name and surname: not found and no dictionary |
| Resolver.SelectRowsClients | main.py:362-367 | every row of a SELECT belongs to a client row that its WHERE clause selects |
| Resolver.LookupClients | main.py:355-422 | every row a lookup helper returns belongs to a stored client row |
| Resolver.FindAgreesWithResolve | main.py:331-349 | insufficient data exactly when no key is usable; a found dictionary's `client_id` is the resolved id and its columns are a stored client row; without a truthy `client_id`, an id is resolved exactly when a dictionary is found, and it names a stored client |
| Resolver.FindById | main.py:333-334 | by id: no dictionary exactly when no client has the id; otherwise that client's full view |
| Mutations.InsertStep | main.py:165-176 | one candidate of `add_phone`'s loop; stated by AddProperties.InsertStepGrowth and AddProperties.BatchSorting |
| Mutations.RunBatch | main.py:164-176 | the loop of `add_phone`; stated by AddProperties.BatchGrowth, AddProperties.BatchSorting, AddProperties.BatchCovers and AddProperties.BatchKeepsKeys |
| Mutations.PhoneRowsFor | main.py:167-170 | the rows inserted for one client; that they list exactly the inserted numbers is stated by AddProperties.NumbersOfRowsFor |
| Mutations.StorePhones | main.py:159-182 | storing a batch for a known client; stated by AddProperties.StorePhonesMeaning |
| Mutations.AddPhoneEffect | main.py:145-182 | `add_phone`; stated by AddProperties.AddPhoneTarget, AddProperties.AddPhoneUnresolved and AddProperties.AddPhoneKeepsSchema |
| Mutations.Cascade | main.py:141-143 | the `params` that `add_client` hands to `add_phone`; stated by AddProperties.CascadeEffect |
| Mutations.AddClientEffect | main.py:112-143 | `add_client`; stated by AddProperties.AddClientMissingField, AddProperties.AddClientDuplicateMail, AddProperties.AddClientInserts and AddProperties.CascadeEffect |
| Mutations.NameUpdates | main.py:200-204 | the name and surname entries of `new_params`; their effect is stated by ChangeProperties.NamePhase |
| Mutations.ClientUpdates | main.py:200-204 | the client-table entries of `new_params`; their effect is stated by ChangeProperties.ClientPhase |
| Mutations.Updates | main.py:200-204 | the entries `change_client` walks; their effect is stated by ChangeProperties.ChangeClientRow and ChangeProperties.ChangeClientPhones |
| Mutations.UpdateClients | main.py:229-233 | an UPDATE on `client`; that it changes only the client's row is stated by ChangeProperties.ClientPhase |
| Mutations.NumberStep | main.py:205-226 | the `new_number` entry; stated by ChangeProperties.ChangeClientPhones |
| Mutations.ClientStep | main.py:227-237 | a `new_name`, `new_surname` or `new_mail` entry; stated by ChangeProperties.ClientPhase and ChangeProperties.MailUpdateKeepsSchema |
| Mutations.ChangeStep | main.py:205-237 | one entry of `change_client`'s loop; stated by ChangeProperties.StepKeepsSchema and ChangeProperties.ChangeFailureSticks |
| Mutations.RunChanges | main.py:204-237 | the loop of `change_client`; stated by ChangeProperties.RunKeepsSchema, ChangeProperties.ClientPhase and ChangeProperties.FailedPrefix |
| Mutations.ChangeClientEffect | main.py:184-239 | `change_client`; stated by ChangeProperties.ChangeClientRow, ChangeProperties.ChangeClientPhones and ChangeProperties.ChangeClientKeepsSchema |
| Mutations.DeleteStep | main.py:280-285 | one number of selective `delete_phone`; stated by DeleteProperties.DeletesShape |
| Mutations.RunDeletes | main.py:279-285 | the loop of selective `delete_phone`; stated by DeleteProperties.DeletesShape and DeleteProperties.DeletesKeepKeys |
| Mutations.DeletePhoneEffect | main.py:253-290 | selective `delete_phone`; stated by DeleteProperties.DeletePhoneMeaning |
| Mutations.DeletePhonesOfEffect | main.py:264-277 | `delete_phone(id, _all_numbers=True)`; stated by DeleteProperties.DeletePhonesOfMeaning |
| Mutations.DeleteClientEffect | main.py:292-315 | `delete_client`; stated by DeleteProperties.DeleteClientMeaning and DeleteProperties.DeleteClientKeepsSchema |
| Mutations.FindPhone | main.py:209-215 | the number lookup finds nothing exactly when the number is absent; otherwise the first row holding it |
| AddProperties.BatchFailureSticks | main.py:164-176 | after an uncaught error the loop does nothing more |
| AddProperties.RunBatchAppend | main.py:164 | running the loop over two lists one after the other equals running it over their concatenation |
| AddProperties.BatchFailedPrefix | main.py:164-176 | once the loop has failed, the remaining candidates change nothing |
| AddProperties.BatchGrowth | main.py:164-172 | the loop only appends: one row per stored candidate, in order, with consecutive ids |
| AddProperties.InsertStepGrowth | main.py:165-176 | one candidate adds at most one row, with its stored form and the next id |
| AddProperties.BatchSorting | main.py:164-176 | short candidates are denied; stored and duplicate candidates are accepted; an unknown client stores nothing; a complete run splits the candidates into stored, duplicate and denied |
| AddProperties.BatchCovers | main.py:164-174 | after a complete run, every accepted candidate's stored form is in the table |
| AddProperties.BatchKeepsKeys | main.py:104-107 | the loop keeps phone ids and numbers unique and every row referencing a client |
| AddProperties.StorePhonesMeaning | main.py:159-182 | client table untouched; with a client there is no error; a foreign-key error leaves both tables as they were; otherwise the report above and the new rows appended |
| AddProperties.StorePhonesKeepsSchema | main.py:104-107 | storing phones keeps the schema's constraints |
| AddProperties.AddPhoneKeepsSchema | main.py:145-182 | `add_phone` keeps the schema's constraints |
| AddProperties.AddPhoneTarget | main.py:156-164 | a truthy known id is used without a lookup, otherwise the resolved id; a missing `new_number` raises and writes nothing |
| AddProperties.AddPhoneUnresolved | main.py:156-158 | without a resolved client, nothing changes |
| AddProperties.RunBatchSnoc | main.py:164 | one more candidate is one more step of the loop |
| AddProperties.MixedBatch | main.py:164-176 | `["123", "9991234567"]` denies the first, stores the second, and appends one row |
| AddProperties.MixedBatchOfOne | main.py:164-172 | a single new ten-digit number is stored |
| AddProperties.AddClientMissingField | main.py:121-129 | a missing name, surname or mail writes nothing |
| AddProperties.AddClientDuplicateMail | main.py:132-136 | an address already present raises and writes nothing |
| AddProperties.AddClientInserts | main.py:130-143 | a fresh id above every existing id; a row with the title-cased name and surname; without numbers the phone table is untouched; with numbers the new rows belong to the client |
| AddProperties.CascadeEffect | main.py:141-143 | with truthy numbers, `add_client` is the insert followed by `add_phone` under the new id |
| AddProperties.NewClientKeepsSchema | main.py:97-101 | a client row with the next id and a free address keeps the constraints |
| AddProperties.AddClientKeepsSchema | main.py:112-143 | `add_client` keeps the schema's constraints |
| AddProperties.NumbersOfRowsFor | main.py:167-170 | the numbers of rows inserted for a client are the inserted numbers, in order |
| AddProperties.NoNumbersOfUnknown | main.py:351 | a client without phone rows has no numbers |
| AddProperties.NewClientHasNoPhones | main.py:98 | a fresh client id owns no phone row |
| AddProperties.NewClientNumbers | main.py:130-143 | after `add_client`, the new client's numbers are exactly the stored forms of the stored candidates |
| AddProperties.AddThenFindByMail | main.py:130-143 | finding by address right after `add_client` returns the new id, the title-cased names, the address and the stored numbers |
| AddProperties.IvanRoundTrip | main.py:130-143 | adding ivan petrov with one number, then finding by mail, returns "Ivan", "Petrov" and the number |
| ChangeProperties.RunChangesAppend | main.py:204 | running the loop over two lists one after the other equals running it over their concatenation |
| ChangeProperties.RunChangesSnoc | main.py:204 | one more entry is one more step of the loop |
| ChangeProperties.ChangeFailureSticks | main.py:204-237 | after an uncaught error the loop does nothing more |
| ChangeProperties.FailedPrefix | main.py:204-237 | once the loop has failed, the remaining entries change nothing |
| ChangeProperties.SameKeysLookups | main.py:229-233 | rewriting names leaves every id and address lookup as it was |
| ChangeProperties.SameKeysKeepSchema | main.py:97-101 | rewriting names keeps the constraints |
| ChangeProperties.MailUpdateKeepsSchema | main.py:228-237 | an address update that is not refused keeps addresses unique |
| ChangeProperties.PhoneRewriteKeepsSchema | main.py:217-226 | rewriting a number to a free ten-character number keeps the constraints |
| ChangeProperties.StepKeepsSchema | main.py:205-237 | every entry keeps the schema's constraints |
| ChangeProperties.RunKeepsSchema | main.py:204-237 | the whole loop keeps the schema's constraints |
| ChangeProperties.ChangeClientKeepsSchema | main.py:184-239 | `change_client` keeps the schema's constraints |
| ChangeProperties.NamePhase | main.py:227-235 | name and surname entries rewrite only the client's row, never fail, and are each counted |
| ChangeProperties.ClientPhase | main.py:200-237 | the client entries rewrite only the client's row, leave the phone table alone, and count every entry except a refused address |
| ChangeProperties.ChangeClientRow | main.py:197-237 | an unresolved client changes nothing; otherwise the client's row gets every new column, the address only when free, and other rows stay |
| ChangeProperties.ChangeClientPhones | main.py:204-226 | no `new_number` leaves phones alone; one without a truthy `number` raises; otherwise the phone holding `number` gets the stored form of an accepted new number that no other row holds, and nothing else changes |
| DeleteProperties.DeletesShape | main.py:278-286 | a row survives exactly when its number was not given; exactly the given numbers that were present are reported, each once |
| DeleteProperties.DeletesKeepKeys | main.py:279-283 | the loop only removes rows and keeps phone keys unique |
| DeleteProperties.DeletePhoneMeaning | main.py:253-290 | without a truthy `number`, nothing happens; otherwise only the phone table changes, exactly as above |
| DeleteProperties.DeletePhoneKeepsSchema | main.py:241-290 | `delete_phone` keeps the schema's constraints |
| DeleteProperties.DeletePhonesOfMeaning | main.py:264-277 | all of the client's phone rows go, every other row and both counters stay, and the call always returns normally, reporting whether the client had any phone |
| DeleteProperties.DeleteClientMeaning | main.py:301-315 | unresolved raises and changes nothing; otherwise the client's phone rows and client row go, nothing else, and both findings are reported |
| DeleteProperties.DeleteClientKeepsSchema | main.py:301-315 | deleting the phones first keeps every remaining phone row referencing a client |
| DeleteProperties.DeleteThenNumberGone | main.py:301-315 | after `delete_client`, a number the client owned finds no client |
| Store.Store.constructor | main.py:97-107 | new tables are empty with both counters at 1 and satisfy the constraints |
| Store.Store.AddPhone | main.py:145-182 | keeps the constraints; the new tables and outcome are exactly those of `add_phone` |
| Store.Store.InsertPhones | main.py:164-176 | the in-place loop ends in the state of the candidate loop, stopping at a foreign-key error |
| Store.Store.AddClient | main.py:112-143 | keeps the constraints; the new tables and outcome are exactly those of `add_client` with its cascade |
| Store.Store.ChangeClient | main.py:184-239 | keeps the constraints; the new tables and outcome are exactly those of `change_client` |
| Store.Store.ApplyEntries | main.py:204-237 | the in-place loop ends in the state of the entry loop, stopping at the first entry that raises |
| Store.Store.ApplyEntry | main.py:205-237 | one entry changes the fields as one step of the loop does |
| Store.Store.RewritePhone | main.py:205-226 | the number branch changes the phone table as one step of the loop does |
| Store.Store.UpdateClient | main.py:227-237 | the client branch changes the client table as one step of the loop does |
| Store.Store.DeletePhone | main.py:253-290 | keeps the constraints; the new tables and outcome are exactly those of selective `delete_phone` |
| Store.Store.DeletePhonesOf | main.py:264-277 | keeps the constraints; the new tables and outcome are exactly those of `delete_phone(id, _all_numbers=True)` |
| Store.Store.DeleteClient | main.py:301-315 | keeps the constraints; the new tables and outcome are exactly those of `delete_client` |

## Left out

- The connection, `psycopg2` and the context manager (main.py:29-68): each SQL statement is modelled as its effect on the tables. Errors the code does not catch are reported as `Raised`, and the statements committed before them stay applied.
- Logging: every `logging` call only writes messages. The model keeps what those messages report (denied and stored numbers, the `flag` counter, found or not found) in the outcomes.
- `delete_table`, `create_table` with its DDL, `init_logging`, `rand_info` and the top-level script are not modelled. The schema's constraints are the `Consistent` predicate instead.
- AddProperties.StorePhonesMeaning: a rejected INSERT consumes a SERIAL value in PostgreSQL. The model keeps the counter unchanged, so later ids can differ from the database's.
- AddProperties.AddClientDuplicateMail: the rejected INSERT consumes a SERIAL value in PostgreSQL. The model keeps `nextClientId` unchanged.
- ChangeProperties.ChangeClientPhones: after a caught duplicate-address UniqueViolation, the transaction is aborted, so the SELECT of a later `new_number` entry would fail with InFailedSqlTransaction. The model carries on and gives `Done`.
- AddProperties.StorePhonesMeaning: psycopg2 leaves the transaction aborted after a caught UniqueViolation, so later statements in the same call would fail there. The model continues the loop, as the code evidently intends.
- `VARCHAR(30)` on the names and the address is not enforced; values of any length are accepted.
- TitleCase.TitleAt: only ASCII letters are cased. Python's `str.title` also recognises non-ASCII letters.
- The order of the `new_*` keys in `params` is fixed as name, surname, mail, number. Python would walk them in insertion order.
- Rows come back from the LEFT JOIN in client order, then phone order. PostgreSQL guarantees no order without an ORDER BY.
- Number arguments are integers or lists of integers, held as decimal text. Strings in `number` or `new_number` are not modelled separately.
- The queries are built by string formatting. Quoting and SQL injection are not modelled: every value is compared as itself.
