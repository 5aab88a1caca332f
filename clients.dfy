/** The client book of ClientManager.tsx. As with the stock screen, the list
    belongs to the caller and every new list goes to `onUpdate`; the
    component keeps the text of its form and of the search box. The
    browser's `crypto.randomUUID()` and the current time are the caller's
    `freshId` and `now`. */
module ClientManager {
  import opened Types
  import opened Seqs
  import opened Text

  /** The text fields of the "new client" form, as typed. */
  datatype ClientForm = ClientForm(name: string, phone: string, email: string, notes: string)

  const EmptyClientForm := ClientForm("", "", "", "")

  /** `s.trim() || undefined`: the trimmed text, absent when it is empty. */
  function OptionalTrimmed(s: string): (r: Option<string>)
    ensures r.None? <==> forall i | 0 <= i < |s| :: IsWhitespace(s[i])
    ensures r.Some? ==> r.value == Trim(s) && r.value != ""
  {
    var t := Trim(s);
    if t == "" then None else Some(t)
  }

  /** What `addClient` leaves: the new list handed to `onUpdate` and the
      form's next state. */
  datatype ClientAdded = ClientAdded(clients: seq<Client>, form: ClientForm)

  /** `addClient`: a blank name changes nothing; otherwise the new client,
      with the trimmed name and the trimmed optional fields, goes in front
      and the form is cleared. */
  function AddClient(clients: seq<Client>, form: ClientForm, currentUserId: Option<string>,
                     freshId: string, now: string): (r: ClientAdded)
    ensures Trim(form.name) == "" ==> r == ClientAdded(clients, form)
    ensures Trim(form.name) != "" ==>
      && r.form == EmptyClientForm
      && |r.clients| == |clients| + 1
      && r.clients[1..] == clients
      && r.clients[0] == Client(freshId, currentUserId, Trim(form.name), OptionalTrimmed(form.phone),
                                OptionalTrimmed(form.email), OptionalTrimmed(form.notes), now)
  {
    var name := Trim(form.name);
    if name == "" then ClientAdded(clients, form)
    else
      var c := Client(freshId, currentUserId, name, OptionalTrimmed(form.phone),
                      OptionalTrimmed(form.email), OptionalTrimmed(form.notes), now);
      ClientAdded([c] + clients, EmptyClientForm)
  }

  /** A client added through the form has no surrounding whitespace in any
      of its text fields, and no optional field holds the empty text. */
  predicate TidyText(s: string) {
    s != "" && Trim(s) == s
  }

  predicate TidyOptional(o: Option<string>) {
    o.Some? ==> TidyText(o.value)
  }

  /** The trimmed optional fields are tidy. */
  lemma OptionalTrimmedIsTidy(s: string)
    ensures TidyOptional(OptionalTrimmed(s))
  {
    TrimIdempotent(s);
  }

  lemma AddedClientIsTidy(clients: seq<Client>, form: ClientForm, currentUserId: Option<string>,
                          freshId: string, now: string)
    requires Trim(form.name) != ""
    ensures var c := AddClient(clients, form, currentUserId, freshId, now).clients[0];
      TidyText(c.name) && TidyOptional(c.phone) && TidyOptional(c.email) && TidyOptional(c.notes)
  {
    var c := AddClient(clients, form, currentUserId, freshId, now).clients[0];
    assert c.name == Trim(form.name) && c.phone == OptionalTrimmed(form.phone);
    assert c.email == OptionalTrimmed(form.email) && c.notes == OptionalTrimmed(form.notes);
    TrimIdempotent(form.name);
    OptionalTrimmedIsTidy(form.phone);
    OptionalTrimmedIsTidy(form.email);
    OptionalTrimmedIsTidy(form.notes);
  }

  function OtherClient(id: string): Client -> bool {
    (c: Client) => c.id != id
  }

  /** `deleteClient`: the clients whose id is not `id`, in their order. */
  function DeleteClient(clients: seq<Client>, id: string): (r: seq<Client>)
    ensures IsSubsequence(r, clients)
    ensures forall c | c in r :: c.id != id
    ensures forall c :: multiset(r)[c] == if c.id != id then multiset(clients)[c] else 0
  {
    FilterSatisfies(clients, OtherClient(id));
    Filter(clients, OtherClient(id))
  }

  /** Deleting the client just added under a fresh id gives back the list. */
  lemma DeleteUndoesAddClient(clients: seq<Client>, form: ClientForm, currentUserId: Option<string>,
                              freshId: string, now: string)
    requires forall c | c in clients :: c.id != freshId
    ensures DeleteClient(AddClient(clients, form, currentUserId, freshId, now).clients, freshId) == clients
  {
    var added := AddClient(clients, form, currentUserId, freshId, now).clients;
    FilterKeepsAll(clients, OtherClient(freshId));
    if added != clients {
      assert added == [added[0]] + clients;
      FilterConcat([added[0]], clients, OtherClient(freshId));
      FilterSingle(added[0], OtherClient(freshId));
    }
  }

  /** The test of `filtered`: an empty query keeps every client; otherwise
      the lower-cased query must occur in the lower-cased name, or in a
      phone or e-mail that is present and not empty. */
  predicate MatchesClient(c: Client, search: string)
    ensures MatchesClient(c, search) <==>
      || Lower(search) == ""
      || (exists i :: OccursAt(Lower(c.name), Lower(search), i))
      || (c.phone.Some? && c.phone.value != "" && exists i :: OccursAt(Lower(c.phone.value), Lower(search), i))
      || (c.email.Some? && c.email.value != "" && exists i :: OccursAt(Lower(c.email.value), Lower(search), i))
  {
    var q := Lower(search);
    || q == ""
    || Contains(Lower(c.name), q)
    || (c.phone.Some? && c.phone.value != "" && Contains(Lower(c.phone.value), q))
    || (c.email.Some? && c.email.value != "" && Contains(Lower(c.email.value), q))
  }

  /** For a non-empty query the falsy checks make no difference, and the
      notes play no part. */
  lemma MatchesClientPlain(c: Client, search: string)
    requires search != ""
    ensures MatchesClient(c, search) <==>
      || Contains(Lower(c.name), Lower(search))
      || (c.phone.Some? && Contains(Lower(c.phone.value), Lower(search)))
      || (c.email.Some? && Contains(Lower(c.email.value), Lower(search)))
  {
    assert Lower(search) != "";
  }

  /** The search ignores case: a query matches the same clients as its
      lower-cased form. */
  lemma ClientSearchIgnoresCase(c: Client, search: string)
    ensures MatchesClient(c, search) <==> MatchesClient(c, Lower(search))
  {
    LowerIdempotent(search);
  }

  /** Notes are never searched. */
  lemma NotesNotSearched(c: Client, notes: Option<string>, search: string)
    ensures MatchesClient(c.(notes := notes), search) == MatchesClient(c, search)
  {
  }

  function MatchingClient(search: string): Client -> bool {
    (c: Client) => MatchesClient(c, search)
  }

  /** `filtered`: the clients that match, in order. */
  function FilterClients(clients: seq<Client>, search: string): (r: seq<Client>)
    ensures IsSubsequence(r, clients)
    ensures forall c :: c in r <==> c in clients && MatchesClient(c, search)
    ensures forall c :: multiset(r)[c] == if MatchesClient(c, search) then multiset(clients)[c] else 0
  {
    var r := Filter(clients, MatchingClient(search));
    assert forall c :: c in r <==> c in multiset(r);
    assert forall c :: c in clients <==> c in multiset(clients);
    r
  }

  /** An empty search lists every client. */
  lemma EmptySearchKeepsAllClients(clients: seq<Client>)
    ensures FilterClients(clients, "") == clients
  {
    FilterKeepsAll(clients, MatchingClient(""));
  }
}
