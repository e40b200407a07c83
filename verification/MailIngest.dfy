/**
 The mail archive loader: each message is looked up, and either backfilled or added with its client, thread,
 attachments, calculation request and facts.
 */
module MailIngest {
  import opened Wrappers

  datatype Role = Client | Supplier | ServiceProvider | Internal | Other | Newsletter

  datatype Kind = Email | Phone | Inn

  /**
   A parsed message. `contact` is the address it is filed under, `phones` the numbers found, None where unreadable.
   */
  datatype Mail = Mail(messageId: Option<string>, hash: string, mailbox: string, folder: string, uid: Option<nat>,
                       thread: string, role: Role, contact: Option<string>, phones: seq<Option<string>>,
                       inn: Option<string>, isCalc: bool, facts: seq<string>, attachments: seq<Attachment>)

  /** `skipped` are the empty and the small inline ones. */
  datatype Attachment = Attachment(sha: string, skipped: bool)

  /** A row of the messages table; `contact` is the address its client was resolved for, if it was. */
  datatype Row = Row(messageId: Option<string>, hash: string, mailbox: string, folder: string, uid: Option<nat>,
                     thread: string, role: Role, contact: Option<string>, client: Option<nat>)

  datatype Thread = Thread(count: nat, client: Option<nat>)

  datatype Card = Card(email: Option<string>, phone: Option<string>, inn: Option<string>)

  datatype Stored = Stored(message: nat, client: Option<nat>)

  datatype Fact = Fact(client: nat, value: string, message: nat)

  datatype Stats = Stats(messages: nat, skipped: nat, clients: nat, calcs: nat, facts: nat, attachments: nat,
                         uncertain: nat)

  const NO_STATS := Stats(0, 0, 0, 0, 0, 0, 0)

  // --- looking a message up

  predicate ById(r: Row, m: Mail) { m.messageId.Some? && r.messageId == m.messageId }

  predicate ByHash(r: Row, m: Mail) { r.hash == m.hash }

  predicate ByUid(r: Row, m: Mail) { m.uid.Some? && r.mailbox == m.mailbox && r.folder == m.folder && r.uid == m.uid }

  predicate Same(r: Row, m: Mail) { ById(r, m) || ByHash(r, m) || ByUid(r, m) }

  ghost predicate Known(rows: seq<Row>, m: Mail) {
    exists i :: 0 <= i < |rows| && Same(rows[i], m)
  }

  /** No two rows share a message id, a content hash, or a place in a mailbox. */
  ghost predicate Distinct(rows: seq<Row>) {
    forall i, j :: 0 <= i < j < |rows| ==>
      && (rows[i].messageId.Some? ==> rows[i].messageId != rows[j].messageId)
      && rows[i].hash != rows[j].hash
      && !(rows[i].uid.Some? && rows[i].uid == rows[j].uid
           && rows[i].mailbox == rows[j].mailbox && rows[i].folder == rows[j].folder)
  }

  /** The newer rows hold the older ones, which may have changed in nothing but their role. */
  predicate Extends(rows: seq<Row>, old_rows: seq<Row>) {
    |old_rows| <= |rows|
    && forall i :: 0 <= i < |old_rows| ==> rows[i] == old_rows[i].(role := rows[i].role)
  }

  lemma KnownStays(rows: seq<Row>, old_rows: seq<Row>, m: Mail)
    requires Extends(rows, old_rows) && Known(old_rows, m)
    ensures Known(rows, m)
  {
    var i :| 0 <= i < |old_rows| && Same(old_rows[i], m);
    assert Same(rows[i], m);
  }

  lemma ExtendsTransitive(a: seq<Row>, b: seq<Row>, c: seq<Row>)
    requires Extends(a, b) && Extends(b, c)
    ensures Extends(a, c)
  {
  }

  predicate Conflict(r: Row, n: Row) {
    (n.messageId.Some? && r.messageId == n.messageId)
    || (n.uid.Some? && r.uid == n.uid && r.mailbox == n.mailbox && r.folder == n.folder)
  }

  ghost predicate Conflicts(rows: seq<Row>, n: Row) {
    exists i :: 0 <= i < |rows| && Conflict(rows[i], n)
  }

  function RowOf(m: Mail, contact: Option<string>, client: Option<nat>): Row {
    Row(m.messageId, m.hash, m.mailbox, m.folder, m.uid, m.thread, m.role, contact, client)
  }

  /** A message that the look-up does not know conflicts with no row. */
  lemma UnknownFits(rows: seq<Row>, m: Mail, contact: Option<string>, client: Option<nat>)
    requires Distinct(rows) && !Known(rows, m)
    ensures !Conflicts(rows, RowOf(m, contact, client)) && Distinct(rows + [RowOf(m, contact, client)])
    ensures Known(rows + [RowOf(m, contact, client)], m) && Extends(rows + [RowOf(m, contact, client)], rows)
  {
    var n := RowOf(m, contact, client);
    assert forall i :: 0 <= i < |rows| ==> !Same(rows[i], m);
    assert Same((rows + [n])[|rows|], m);
  }

  /** The role a re-read message leaves its row with. */
  function Reclassified(role: Role, read: Role): Role {
    if (role.Client? || role.Supplier?) && (read.Newsletter? || read.ServiceProvider?) then role
    else if read.Newsletter? || read.ServiceProvider? || read.Internal? then read
    else role
  }

  /**
   Read again, a client's or supplier's message is never taken for a newsletter or a provider's, any may turn out
   internal, nothing else changes a role to one of those three, and reading the same twice changes nothing more.
   */
  lemma RoleSettles(role: Role, read: Role)
    ensures var next := Reclassified(role, read);
            && Reclassified(next, read) == next && (next == role || next == read)
            && (read.Internal? ==> next.Internal?)
            && (role.Client? || role.Supplier? ==> next == role || next.Internal?)
            && (read.Newsletter? || read.ServiceProvider? ==> (next == read <==> !role.Client? && !role.Supplier?))
            && (read.Client? || read.Supplier? || read.Other? ==> next == role)
  {
  }

  // --- threads

  function CountOf(rows: seq<Row>, thread: string): nat {
    if rows == [] then 0
    else CountOf(rows[..|rows| - 1], thread) + if rows[|rows| - 1].thread == thread then 1 else 0
  }

  lemma {:induction false} CountOfExtended(rows: seq<Row>, old_rows: seq<Row>, thread: string)
    requires Extends(rows, old_rows) && |rows| == |old_rows|
    ensures CountOf(rows, thread) == CountOf(old_rows, thread)
  {
    if rows != [] {
      CountOfExtended(rows[..|rows| - 1], old_rows[..|rows| - 1], thread);
    }
  }

  ghost function RowsOf(rows: seq<Row>, thread: string): set<nat> {
    set i: nat | i < |rows| && rows[i].thread == thread
  }

  lemma RowsOfStep(rows: seq<Row>, thread: string)
    requires rows != []
    ensures var n := |rows| - 1;
            RowsOf(rows, thread) == RowsOf(rows[..n], thread) + (if rows[n].thread == thread then {n} else {})
            && n !in RowsOf(rows[..n], thread)
  {
  }

  /** It is the number of rows filed under the thread. */
  lemma {:induction false} CountOfMeans(rows: seq<Row>, thread: string)
    ensures CountOf(rows, thread) == |RowsOf(rows, thread)|
  {
    if rows != [] {
      RowsOfStep(rows, thread);
      CountOfMeans(rows[..|rows| - 1], thread);
      hide RowsOf;
    }
  }

  lemma CountOfAppend(rows: seq<Row>, r: Row, thread: string)
    ensures CountOf(rows + [r], thread) == CountOf(rows, thread) + if r.thread == thread then 1 else 0
  {
    assert (rows + [r])[..|rows|] == rows;
  }

  ghost predicate ThreadsMatch(threads: map<string, Thread>, rows: seq<Row>) {
    forall k: string :: ThreadFits(threads, rows, k)
  }

  /** The thread is there if it has rows, and its count is theirs. */
  predicate ThreadFits(threads: map<string, Thread>, rows: seq<Row>, k: string) {
    (k in threads <==> 0 < CountOf(rows, k)) && (k in threads ==> threads[k].count == CountOf(rows, k))
  }

  function Bumped(threads: map<string, Thread>, key: string, client: Option<nat>, bump: nat): map<string, Thread> {
    threads[key := if key in threads
                   then Thread(threads[key].count + bump,
                               if threads[key].client.Some? then threads[key].client else client)
                   else Thread(bump, client)]
  }

  /** A thread's client stays once it is known, and other threads stay as they are. */
  lemma ThreadClientStays(threads: map<string, Thread>, key: string, client: Option<nat>, bump: nat, k: string)
    ensures var bumped := Bumped(threads, key, client, bump);
            && (k in threads && threads[k].client.Some? ==> bumped[k].client == threads[k].client)
            && (k != key && k in threads ==> bumped[k] == threads[k])
            && ((key !in threads || threads[key].client.None?) ==> bumped[key].client == client)
  {
  }

  /** The thread is looked up without counting, the row is added, and the thread is counted up. */
  lemma BumpMatches(threads: map<string, Thread>, rows: seq<Row>, r: Row)
    requires ThreadsMatch(threads, rows)
    ensures ThreadsMatch(Bumped(Bumped(threads, r.thread, r.client, 0), r.thread, r.client, 1), rows + [r])
  {
    var once := Bumped(threads, r.thread, r.client, 0);
    var twice := Bumped(once, r.thread, r.client, 1);
    forall k: string
      ensures ThreadFits(twice, rows + [r], k)
    {
      assert ThreadFits(threads, rows, k);
      CountOfAppend(rows, r, k);
      BumpedAt(threads, r.thread, r.client, 0, k);
      BumpedAt(once, r.thread, r.client, 1, k);
      hide CountOf, Bumped;
    }
  }

  lemma BumpedAt(threads: map<string, Thread>, key: string, client: Option<nat>, bump: nat, k: string)
    ensures var bumped := Bumped(threads, key, client, bump);
            && (k in bumped <==> k in threads || k == key)
            && (k in bumped ==> bumped[k].count == (if k in threads then threads[k].count else 0)
                                                   + if k == key then bump else 0)
  {
  }

  lemma MatchesExtended(threads: map<string, Thread>, rows: seq<Row>, old_rows: seq<Row>)
    requires ThreadsMatch(threads, old_rows) && Extends(rows, old_rows) && |rows| == |old_rows|
    ensures ThreadsMatch(threads, rows)
  {
    forall k: string
      ensures ThreadFits(threads, rows, k)
    {
      assert ThreadFits(threads, old_rows, k);
      CountOfExtended(rows, old_rows, k);
    }
  }

  // --- clients

  function ByPrimary(clients: seq<Card>, email: string): Option<nat> {
    if clients == [] then None
    else if clients[|clients| - 1].email == Some(email) then Some(|clients| - 1)
    else ByPrimary(clients[..|clients| - 1], email)
  }

  lemma {:induction false} ByPrimaryIs(clients: seq<Card>, email: string)
    ensures var i := ByPrimary(clients, email);
            if i.Some? then i.value < |clients| && clients[i.value].email == Some(email)
            else forall j :: 0 <= j < |clients| ==> clients[j].email != Some(email)
  {
    if clients != [] && clients[|clients| - 1].email != Some(email) {
      ByPrimaryIs(clients[..|clients| - 1], email);
    }
  }

  /** Where a card is looked for, first match first: this run's cache, the address, the primary address, phone, INN. */
  function Lookup(cache: map<string, nat>, identities: map<(Kind, string), nat>, clients: seq<Card>,
                  c: Card): Option<nat> {
    if c.email.Some? && c.email.value in cache then Some(cache[c.email.value])
    else if c.email.Some? && (Email, c.email.value) in identities then Some(identities[(Email, c.email.value)])
    else if c.email.Some? && ByPrimary(clients, c.email.value).Some? then ByPrimary(clients, c.email.value)
    else if c.phone.Some? && (Phone, c.phone.value) in identities then Some(identities[(Phone, c.phone.value)])
    else if c.inn.Some? && (Inn, c.inn.value) in identities then Some(identities[(Inn, c.inn.value)])
    else None
  }

  /** The first of several look-ups that finds a client. */
  function FirstFound(found: seq<Option<nat>>): Option<nat> {
    if found == [] then None else if found[0].Some? then found[0] else FirstFound(found[1..])
  }

  function Get<K>(m: map<K, nat>, k: K): Option<nat> { if k in m then Some(m[k]) else None }

  /** A card is looked up by its address in the cache, the identities and the clients, then by phone, then by INN. */
  lemma LookupOrder(cache: map<string, nat>, identities: map<(Kind, string), nat>, clients: seq<Card>,
                    email: string, phone: string, inn: string)
    ensures var byEmail := [Get(cache, email), Get(identities, (Email, email)), ByPrimary(clients, email)];
            var byPhone, byInn := [Get(identities, (Phone, phone))], [Get(identities, (Inn, inn))];
            && Lookup(cache, identities, clients, Card(Some(email), Some(phone), Some(inn)))
               == FirstFound(byEmail + byPhone + byInn)
            && Lookup(cache, identities, clients, Card(None, Some(phone), Some(inn))) == FirstFound(byPhone + byInn)
            && Lookup(cache, identities, clients, Card(Some(email), None, None)) == FirstFound(byEmail)
            && Lookup(cache, identities, clients, Card(None, None, Some(inn))) == FirstFound(byInn)
            && Lookup(cache, identities, clients, Card(None, None, None)) == None
  {
    var byEmail := [Get(cache, email), Get(identities, (Email, email)), ByPrimary(clients, email)];
    var byPhone, byInn := [Get(identities, (Phone, phone))], [Get(identities, (Inn, inn))];
    hide ByPrimary;
    FirstOfTwo(byPhone[0], byInn);
    FirstOfTwo(byInn[0], []);
    FirstOfTwo(byEmail[2], []);
    FirstOfTwo(byEmail[1], [byEmail[2]]);
    FirstOfTwo(byEmail[0], [byEmail[1], byEmail[2]]);
    FirstOfTwo(byEmail[2], byPhone + byInn);
    FirstOfTwo(byEmail[1], [byEmail[2]] + (byPhone + byInn));
    FirstOfTwo(byEmail[0], [byEmail[1]] + ([byEmail[2]] + (byPhone + byInn)));
    assert byEmail + byPhone + byInn == [byEmail[0]] + ([byEmail[1]] + ([byEmail[2]] + (byPhone + byInn)));
    assert byEmail == [byEmail[0]] + [byEmail[1], byEmail[2]]
           && [byEmail[1], byEmail[2]] == [byEmail[1]] + [byEmail[2]];
    assert [byEmail[2]] + [] == [byEmail[2]] && byInn + [] == byInn;
    hide FirstFound;
  }

  lemma FirstOfTwo(first: Option<nat>, later: seq<Option<nat>>)
    ensures FirstFound([first] + later) == if first.Some? then first else FirstFound(later)
  {
    assert ([first] + later)[1..] == later;
  }

  function WithIdentity(identities: map<(Kind, string), nat>, kind: Kind, value: Option<string>,
                        client: nat): map<(Kind, string), nat> {
    if value.None? || (kind, value.value) in identities then identities else identities[(kind, value.value) := client]
  }

  function WithAll(identities: map<(Kind, string), nat>, c: Card, client: nat): map<(Kind, string), nat> {
    var more := WithIdentity(WithIdentity(identities, Email, c.email, client), Phone, c.phone, client);
    WithIdentity(more, Inn, c.inn, client)
  }

  /**
   The identities after a card is resolved: all of a new client's, the address of one found by its primary address, and
   none otherwise, so also not the address of a client found by phone or INN.
   */
  function Identified(cache: map<string, nat>, identities: map<(Kind, string), nat>, clients: seq<Card>,
                      c: Card): map<(Kind, string), nat> {
    if Lookup(cache, identities, clients, c).None? then
      WithAll(identities, c, |clients|)
    else if c.email.Some? && c.email.value !in cache && ByPrimary(clients, c.email.value).Some? then
      WithIdentity(identities, Email, c.email, ByPrimary(clients, c.email.value).value)
    else identities
  }

  function FactsOf(client: nat, values: seq<string>, message: nat): (facts: seq<Fact>)
    ensures |facts| == |values|
  {
    seq(|values|, i requires 0 <= i < |values| => Fact(client, values[i], message))
  }

  lemma FactAdded(client: nat, values: seq<string>, message: nat, i: nat)
    requires i < |values|
    ensures FactsOf(client, values[..i + 1], message)
         == FactsOf(client, values[..i], message) + [Fact(client, values[i], message)]
  {
  }

  ghost predicate IdsBelow<K(!new)>(ids: map<K, nat>, n: nat) {
    forall k :: k in ids ==> ids[k] < n
  }

  ghost predicate Grows<K(!new), V(!new)>(m: map<K, V>, old_m: map<K, V>) {
    forall k :: k in old_m ==> k in m && m[k] == old_m[k]
  }

  /** The rows of this run filed under an external address have the client that the run's cache gives for it. */
  ghost predicate OneClient(rows: seq<Row>, first: nat, own: set<string>, cache: map<string, nat>) {
    forall i :: first <= i < |rows| && rows[i].contact.Some? && rows[i].contact.value !in own ==>
      rows[i].contact.value in cache && rows[i].client == Some(cache[rows[i].contact.value])
  }

  lemma OneClientAdds(rows: seq<Row>, first: nat, own: set<string>, old_cache: map<string, nat>,
                      cache: map<string, nat>, n: Row)
    requires OneClient(rows, first, own, old_cache) && Grows(cache, old_cache)
    requires n.contact.Some? && n.contact.value !in own ==>
               n.contact.value in cache && n.client == Some(cache[n.contact.value])
    ensures OneClient(rows + [n], first, own, cache)
  {
  }

  lemma OneClientStays(rows: seq<Row>, old_rows: seq<Row>, first: nat, own: set<string>, cache: map<string, nat>)
    requires OneClient(old_rows, first, own, cache) && Extends(rows, old_rows) && |rows| == |old_rows|
    ensures OneClient(rows, first, own, cache)
  {
  }

  lemma DistinctStays(rows: seq<Row>, old_rows: seq<Row>)
    requires Distinct(old_rows) && Extends(rows, old_rows) && |rows| == |old_rows|
    ensures Distinct(rows)
  {
  }

  /** One of the first n attachments that are stored has this content. */
  predicate Mentions(atts: seq<Attachment>, n: nat, sha: string)
    requires n <= |atts|
  {
    exists i :: 0 <= i < n && !atts[i].skipped && atts[i].sha == sha
  }

  /** Every attachment of the message is stored. */
  ghost predicate AllStored(stored: map<string, Stored>, atts: seq<Attachment>) {
    forall i :: 0 <= i < |atts| && !atts[i].skipped ==> atts[i].sha in stored
  }

  datatype Tables = Tables(messages: seq<Row>, threads: map<string, Thread>, clients: seq<Card>,
                           identities: map<(Kind, string), nat>, attachments: map<string, Stored>, calcs: seq<nat>,
                           facts: seq<Fact>)

  /** Nothing was added or counted; rows may have another role, attachments a client. */
  ghost predicate Unmoved(t: Tables, old_t: Tables) {
    && Extends(t.messages, old_t.messages) && |t.messages| == |old_t.messages|
    && t.threads == old_t.threads && t.clients == old_t.clients && t.identities == old_t.identities
    && t.calcs == old_t.calcs && t.facts == old_t.facts
  }

  /** Every message is known and all its attachments are stored. */
  ghost predicate Settled(t: Tables, files: seq<Mail>) {
    forall i :: 0 <= i < |files| ==> Known(t.messages, files[i]) && AllStored(t.attachments, files[i].attachments)
  }

  lemma UnmovedHere(t: Tables)
    ensures Unmoved(t, t) && Extends(t.messages, t.messages)
  {
  }

  lemma UnmovedTransitive(a: Tables, b: Tables, c: Tables)
    ensures Unmoved(b, a) && Unmoved(c, b) ==> Unmoved(c, a)
  {
  }

  lemma SettledAt(before: Tables, was: Tables, files: seq<Mail>, n: nat)
    requires n < |files| && Settled(before, files) && Extends(was.messages, before.messages)
    requires before.attachments.Keys <= was.attachments.Keys
    ensures Known(was.messages, files[n]) && AllStored(was.attachments, files[n].attachments)
  {
    KnownStays(was.messages, before.messages, files[n]);
  }

  lemma SettledGrows(was: Tables, now: Tables, files: seq<Mail>, n: nat)
    requires n < |files| && Settled(was, files[..n]) && Extends(now.messages, was.messages)
    requires was.attachments.Keys <= now.attachments.Keys
    requires Known(now.messages, files[n]) && AllStored(now.attachments, files[n].attachments)
    ensures Settled(now, files[..n + 1])
  {
    forall i | 0 <= i < n
      ensures Known(now.messages, files[i]) && AllStored(now.attachments, files[i].attachments)
    {
      assert files[..n][i] == files[i];
      KnownStays(now.messages, was.messages, files[i]);
    }
  }

  class Ingest {
    const own: set<string>
    var messages: seq<Row>
    var threads: map<string, Thread>
    var clients: seq<Card>
    var identities: map<(Kind, string), nat>
    var attachments: map<string, Stored>
    var calcs: seq<nat>
    var facts: seq<Fact>
    var cache: map<string, nat>
    var stats: Stats
    ghost var base: Stats

    ghost predicate ClientsValid()
      reads this
    {
      IdsBelow(identities, |clients|) && IdsBelow(cache, |clients|)
    }

    constructor (own: set<string>)
      ensures this.own == own && messages == [] && threads == map[] && clients == [] && identities == map[]
      ensures attachments == map[] && calcs == [] && facts == [] && cache == map[] && stats == NO_STATS
      ensures Valid() && base == NO_STATS
    {
      this.own := own;
      messages, threads, clients, identities := [], map[], [], map[];
      attachments, calcs, facts, cache, stats, base := map[], [], [], map[], NO_STATS, NO_STATS;
    }

    /** INSERT … ON CONFLICT DO NOTHING. */
    method AddIdentity(kind: Kind, value: string, client: nat)
      modifies this`identities
      ensures identities == WithIdentity(old(identities), kind, Some(value), client)
    {
      if (kind, value) !in identities {
        identities := identities[(kind, value) := client];
      }
    }

    /** A new client with all its identities. */
    method CreateClient(c: Card) returns (client: nat)
      modifies this`clients, this`identities, this`stats
      ensures client == |old(clients)| && clients == old(clients) + [c]
      ensures stats == old(stats).(clients := old(stats.clients) + 1)
      ensures identities == WithAll(old(identities), c, client)
      ensures forall k :: k in identities && k !in old(identities) ==> identities[k] == client
      ensures c.email.Some? ==> (Email, c.email.value) in identities
      ensures c.phone.Some? ==> (Phone, c.phone.value) in identities
      ensures c.inn.Some? ==> (Inn, c.inn.value) in identities
      ensures Grows(identities, old(identities))
              && (IdsBelow(old(identities), client) ==> IdsBelow(identities, |clients|))
    {
      client := |clients|;
      clients := clients + [c];
      stats := stats.(clients := stats.clients + 1);
      if c.email.Some? {
        AddIdentity(Email, c.email.value, client);
      }
      if c.phone.Some? {
        AddIdentity(Phone, c.phone.value, client);
      }
      if c.inn.Some? {
        AddIdentity(Inn, c.inn.value, client);
      }
    }

    /** The client of a card, looked up or added; none for an own address. An address is cached for the run. */
    method ResolveOrCreateClient(c: Card) returns (client: Option<nat>)
      requires ClientsValid()
      modifies this`clients, this`identities, this`cache, this`stats
      ensures ClientsValid() && Grows(identities, old(identities)) && Grows(cache, old(cache))
      ensures !(c.email.Some? && c.email.value in own) ==>
                identities == Identified(old(cache), old(identities), old(clients), c)
      ensures c.email.Some? && c.email.value !in own && c.email.value !in old(cache) ==>
                ((Email, c.email.value) in identities <==>
                   || (Email, c.email.value) in old(identities)
                   || (exists i :: 0 <= i < |old(clients)| && old(clients)[i].email == c.email)
                   || |clients| != |old(clients)|)
      ensures c.email.Some? && c.email.value in own ==>
                client == None && clients == old(clients) && cache == old(cache) && stats == old(stats)
                && identities == old(identities)
      ensures !(c.email.Some? && c.email.value in own) ==>
                var found := old(Lookup(cache, identities, clients, c));
                && client == Some(found.GetOr(|old(clients)|)) && client.value < |clients|
                && clients == old(clients) + (if found.None? then [c] else [])
                && stats == old(stats).(clients := old(stats.clients) + if found.None? then 1 else 0)
                && cache == (if c.email.Some? then old(cache)[c.email.value := client.value] else old(cache))
    {
      if c.email.Some? && c.email.value in own {
        return None;
      }
      if c.email.Some? {
        var email := c.email.value;
        if email in cache {
          return Some(cache[email]);
        }
        if (Email, email) in identities {
          cache := cache[email := identities[(Email, email)]];
          return Some(cache[email]);
        }
        ByPrimaryIs(clients, email);
        var primary := ByPrimary(clients, email);
        if primary.Some? {
          AddIdentity(Email, email, primary.value);
          cache := cache[email := primary.value];
          return primary;
        }
      }
      var found: Option<nat> := None;
      if c.phone.Some? && (Phone, c.phone.value) in identities {
        found := Some(identities[(Phone, c.phone.value)]);
      } else if c.inn.Some? && (Inn, c.inn.value) in identities {
        found := Some(identities[(Inn, c.inn.value)]);
      }
      if found.Some? {
        if c.email.Some? {
          cache := cache[c.email.value := found.value];
        }
        return found;
      }
      var created := CreateClient(c);
      client := Some(created);
      if c.email.Some? {
        cache := cache[c.email.value := created];
      }
    }

    method UpsertThread(key: string, client: Option<nat>, bumpCount: bool)
      modifies this`threads
      ensures threads == Bumped(old(threads), key, client, if bumpCount then 1 else 0)
    {
      if bumpCount {
        threads := threads[key := if key in threads
                                  then Thread(threads[key].count + 1,
                                              if threads[key].client.Some? then threads[key].client else client)
                                  else Thread(1, client)];
      } else {
        threads := threads[key := if key in threads
                                  then threads[key].(client := if threads[key].client.Some? then threads[key].client
                                                     else client)
                                  else Thread(0, client)];
      }
    }

    /** Each attachment is stored once; a later message only fills in the client it came without. */
    method SaveAttachments(atts: seq<Attachment>, message: nat, client: Option<nat>)
      modifies this`attachments, this`stats
      ensures forall i :: 0 <= i < |atts| && !atts[i].skipped ==> atts[i].sha in attachments
      ensures forall k :: k in attachments && k !in old(attachments) ==>
                attachments[k] == Stored(message, client)
                && exists i :: 0 <= i < |atts| && !atts[i].skipped && atts[i].sha == k
      ensures forall k :: k in old(attachments) ==>
                k in attachments && attachments[k].message == old(attachments)[k].message
                && attachments[k].client
                   == (if old(attachments)[k].client.None? && Mentions(atts, |atts|, k) then client
                       else old(attachments)[k].client)
      ensures stats == old(stats).(attachments := stats.attachments)
    {
      for i := 0 to |atts|
        invariant forall j :: 0 <= j < i && !atts[j].skipped ==> atts[j].sha in attachments
        invariant forall k :: k in attachments && k !in old(attachments) ==>
                    attachments[k] == Stored(message, client)
                    && exists j :: 0 <= j < i && !atts[j].skipped && atts[j].sha == k
        invariant forall k :: k in old(attachments) ==>
                    k in attachments && attachments[k].message == old(attachments)[k].message
                    && attachments[k].client == (if old(attachments)[k].client.None? && Mentions(atts, i, k) then client
                                                 else old(attachments)[k].client)
        invariant stats == old(stats).(attachments := stats.attachments)
      {
        if !atts[i].skipped {
          var sha := atts[i].sha;
          if sha in attachments {
            if attachments[sha].client.None? {
              attachments := attachments[sha := attachments[sha].(client := client)];
            }
          } else {
            attachments := attachments[sha := Stored(message, client)];
          }
          stats := stats.(attachments := stats.attachments + 1);
        }
      }
    }

    /** The row of a message that was loaded before: by its id, else by its content, else by its place. */
    method FindExisting(m: Mail) returns (found: Option<nat>)
      ensures found.Some? <==> Known(messages, m)
      ensures found.Some? ==> found.value < |messages| && Same(messages[found.value], m)
      ensures (exists i :: 0 <= i < |messages| && ById(messages[i], m)) ==>
                found.Some? && ById(messages[found.value], m)
    {
      for i := 0 to |messages|
        invariant forall j :: 0 <= j < i ==> !ById(messages[j], m)
      {
        if ById(messages[i], m) {
          assert Same(messages[i], m);
          return Some(i);
        }
      }
      for i := 0 to |messages|
        invariant forall j :: 0 <= j < i ==> !ByHash(messages[j], m)
      {
        if ByHash(messages[i], m) {
          assert Same(messages[i], m);
          return Some(i);
        }
      }
      for i := 0 to |messages|
        invariant forall j :: 0 <= j < i ==> !ByUid(messages[j], m)
      {
        if ByUid(messages[i], m) {
          assert Same(messages[i], m);
          return Some(i);
        }
      }
      return None;
    }

    /** INSERT … ON CONFLICT DO NOTHING over the unique message id and the unique place in a mailbox. */
    method InsertMessage(r: Row) returns (id: Option<nat>)
      modifies this`messages
      ensures id.None? <==> Conflicts(old(messages), r)
      ensures id.None? ==> messages == old(messages)
      ensures id.Some? ==> id.value == |old(messages)| && messages == old(messages) + [r]
    {
      for i := 0 to |messages|
        invariant messages == old(messages) && forall j :: 0 <= j < i ==> !Conflict(messages[j], r)
      {
        if Conflict(messages[i], r) {
          return None;
        }
      }
      messages := messages + [r];
      return Some(|messages| - 1);
    }

    method AddFacts(client: nat, values: seq<string>, message: nat)
      modifies this`facts, this`stats
      ensures facts == old(facts) + FactsOf(client, values, message)
      ensures stats == old(stats).(facts := old(stats.facts) + |values|)
    {
      for i := 0 to |values|
        invariant facts == old(facts) + FactsOf(client, values[..i], message)
        invariant stats == old(stats).(facts := old(stats.facts) + i)
      {
        FactAdded(client, values, message, i);
        facts := facts + [Fact(client, values[i], message)];
        stats := stats.(facts := stats.facts + 1);
      }
      assert values[..|values|] == values;
    }

    /** The request and the facts of a client's new message. */
    method AddRequest(m: Mail, client: nat, message: nat)
      modifies this`calcs, this`facts, this`stats
      ensures calcs == old(calcs) + if m.isCalc then [client] else []
      ensures facts == old(facts) + FactsOf(client, m.facts, message)
      ensures stats == old(stats).(calcs := old(stats.calcs) + (if m.isCalc then 1 else 0),
                                   facts := old(stats.facts) + |m.facts|)
    {
      if m.isCalc {
        calcs := calcs + [client];
        stats := stats.(calcs := stats.calcs + 1);
      }
      AddFacts(client, m.facts, message);
    }

    /** The client a new message belongs to: only messages of the client role have one. */
    method ClientOf(m: Mail) returns (contact: Option<string>, client: Option<nat>)
      requires ClientsValid()
      modifies this`clients, this`identities, this`cache, this`stats
      ensures ClientsValid() && Grows(cache, old(cache)) && Grows(identities, old(identities))
              && old(clients) <= clients
      ensures stats == old(stats).(clients := stats.clients, uncertain := stats.uncertain)
      ensures stats.clients - old(stats.clients) == |clients| - |old(clients)|
      ensures contact == if m.role.Client? then m.contact else None
      ensures contact.Some? && contact.value !in own ==> contact.value in cache && client == Some(cache[contact.value])
      ensures client.Some? ==> m.role.Client? && client.value < |clients|
      ensures !m.role.Client? ==> clients == old(clients) && client == None
    {
      contact, client := None, None;
      if m.role.Client? {
        if m.contact.None? && m.phones == [] {
          stats := stats.(uncertain := stats.uncertain + 1);
        } else {
          contact := m.contact;
          client := ResolveOrCreateClient(Card(m.contact, if m.phones != [] then m.phones[0] else None, m.inn));
        }
      }
    }

    /** What the loader keeps true; `base` are the sizes of the tables when the run began. */
    ghost predicate Valid()
      reads this
    {
      && ClientsValid() && Distinct(messages) && ThreadsMatch(threads, messages)
      && |messages| == base.messages + stats.messages && |clients| == base.clients + stats.clients
      && |calcs| == base.calcs + stats.calcs && |facts| == base.facts + stats.facts
      && OneClient(messages, base.messages, own, cache)
    }

    /** A new process: an empty cache and fresh counters over the same tables. */
    method BeginRun()
      requires Valid()
      modifies this`cache, this`stats, this`base
      ensures Valid() && cache == map[] && stats == NO_STATS
      ensures base == Stats(|messages|, 0, |clients|, |calcs|, |facts|, 0, 0)
    {
      cache, stats := map[], NO_STATS;
      base := Stats(|messages|, 0, |clients|, |calcs|, |facts|, 0, 0);
    }

    /** A message loaded before: its row's role and its attachments are filled in, nothing is counted again. */
    method Backfill(m: Mail, i: nat)
      requires Valid() && i < |messages|
      modifies this`messages, this`attachments, this`stats
      ensures Valid() && Extends(messages, old(messages)) && |messages| == |old(messages)|
      ensures messages == old(messages)[i := old(messages[i]).(role := Reclassified(old(messages[i]).role, m.role))]
      ensures AllStored(attachments, m.attachments) && old(attachments).Keys <= attachments.Keys
      ensures AllStored(old(attachments), m.attachments) ==> attachments.Keys == old(attachments).Keys
      ensures stats == old(stats).(skipped := old(stats.skipped) + 1, attachments := stats.attachments)
    {
      messages := messages[i := messages[i].(role := Reclassified(messages[i].role, m.role))];
      MatchesExtended(threads, messages, old(messages));
      DistinctStays(messages, old(messages));
      OneClientStays(messages, old(messages), base.messages, own, cache);
      hide Distinct, ThreadsMatch, OneClient, Reclassified;
      SaveAttachments(m.attachments, i, messages[i].client);
      stats := stats.(skipped := stats.skipped + 1);
    }

    /** The row and the thread count of a new message. */
    method FileMessage(m: Mail, contact: Option<string>, client: Option<nat>) returns (id: nat)
      requires Distinct(messages) && ThreadsMatch(threads, messages) && !Known(messages, m)
      modifies this`messages, this`threads, this`stats
      ensures Distinct(messages) && ThreadsMatch(threads, messages) && Known(messages, m)
      ensures id == |old(messages)| && messages == old(messages) + [RowOf(m, contact, client)]
      ensures stats == old(stats).(messages := old(stats.messages) + 1)
    {
      var row := RowOf(m, contact, client);
      BumpMatches(threads, messages, row);
      UnknownFits(messages, m, contact, client);
      hide Distinct, ThreadsMatch, Known, Conflicts, Bumped;
      UpsertThread(m.thread, client, false);
      var inserted := InsertMessage(row);
      id := inserted.value;
      UpsertThread(m.thread, client, true);
      stats := stats.(messages := stats.messages + 1);
    }

    /** A message not loaded before. */
    method AddMessage(m: Mail)
      requires Valid() && !Known(messages, m)
      modifies this`messages, this`threads, this`clients, this`identities, this`attachments, this`calcs, this`facts,
               this`cache, this`stats
      ensures Valid() && Known(messages, m)
      ensures Extends(messages, old(messages)) && |messages| == |old(messages)| + 1
      ensures AllStored(attachments, m.attachments) && old(attachments).Keys <= attachments.Keys
      ensures stats.messages == old(stats.messages) + 1 && stats.skipped == old(stats.skipped)
      ensures var row := messages[|old(messages)|];
              && row.role == m.role && row.thread == m.thread && Same(row, m)
              && row == RowOf(m, if m.role.Client? then row.contact else None,
                              if m.role.Client? then row.client else None)
              && calcs == old(calcs) + (if row.client.Some? && m.isCalc then [row.client.value] else [])
              && facts == old(facts)
                          + (if row.client.Some? then FactsOf(row.client.value, m.facts, |old(messages)|) else [])
    {
      var contact, client := ClientOf(m);
      OneClientAdds(messages, base.messages, own, old(cache), cache, RowOf(m, contact, client));
      hide Distinct, ThreadsMatch, OneClient, Known;
      var id := FileMessage(m, contact, client);
      SaveAttachments(m.attachments, id, client);
      if m.role.Client? && client.Some? {
        AddRequest(m, client.value, id);
      }
    }

    function Snapshot(): Tables
      reads this
    {
      Tables(messages, threads, clients, identities, attachments, calcs, facts)
    }

    /**
     One file of the archive. Of a message known before, only the row's role and the attachments' clients may change.
     */
    method IngestFile(m: Mail)
      requires Valid()
      modifies this`messages, this`threads, this`clients, this`identities, this`attachments, this`calcs, this`facts,
               this`cache, this`stats
      ensures Valid() && Known(messages, m) && AllStored(attachments, m.attachments)
      ensures Extends(messages, old(messages)) && old(attachments).Keys <= attachments.Keys
      ensures stats.messages + stats.skipped == old(stats.messages + stats.skipped) + 1
      ensures old(Known(messages, m)) ==> Unmoved(Snapshot(), old(Snapshot()))
      ensures old(Known(messages, m)) && AllStored(old(attachments), m.attachments) ==>
                attachments.Keys == old(attachments).Keys
    {
      var existing := FindExisting(m);
      if existing.Some? {
        Backfill(m, existing.value);
        KnownStays(messages, old(messages), m);
      } else {
        hide *;
        AddMessage(m);
      }
    }

    /**
     A run over the archive. Afterwards every message is known and every attachment stored; each file was counted once,
     as new or as skipped; and if all were known before, nothing was added to any table.
     */
    method Run(files: seq<Mail>)
      requires Valid()
      modifies this
      ensures Valid() && stats.messages + stats.skipped == |files| && Extends(messages, old(messages))
      ensures base == Stats(|old(messages)|, 0, |old(clients)|, |old(calcs)|, |old(facts)|, 0, 0)
      ensures Settled(Snapshot(), files)
      ensures Settled(old(Snapshot()), files) ==>
                Unmoved(Snapshot(), old(Snapshot())) && attachments.Keys == old(attachments).Keys
    {
      BeginRun();
      ghost var before := Snapshot();
      hide Known, AllStored, Extends, Unmoved;
      UnmovedHere(before);
      for n := 0 to |files|
        invariant Valid() && stats.messages + stats.skipped == n
        invariant base == Stats(|before.messages|, 0, |before.clients|, |before.calcs|, |before.facts|, 0, 0)
        invariant Extends(messages, before.messages) && before.attachments.Keys <= attachments.Keys
        invariant Settled(Snapshot(), files[..n])
        invariant Settled(before, files) ==> Unmoved(Snapshot(), before) && attachments.Keys == before.attachments.Keys
      {
        ghost var was := Snapshot();
        hide Settled;
        if Settled(before, files) {
          SettledAt(before, was, files, n);
        }
        IngestFile(files[n]);
        SettledGrows(was, Snapshot(), files, n);
        UnmovedTransitive(before, was, Snapshot());
        ExtendsTransitive(messages, was.messages, before.messages);
      }
      assert files[..|files|] == files;
    }

    /**
     Two runs over the same files: the second adds no message, thread count, client, identity, request, fact or
     attachment.
     */
    method RunTwice(files: seq<Mail>) returns (ghost between: Tables)
      requires Valid()
      modifies this
      ensures Valid() && Unmoved(Snapshot(), between) && attachments.Keys == between.attachments.Keys
      ensures stats.messages == 0 && stats.skipped == |files| && stats.clients == 0 && stats.calcs == 0
              && stats.facts == 0
    {
      Run(files);
      between := Snapshot();
      hide Settled, Distinct, ThreadsMatch, OneClient;
      Run(files);
    }
  }

  /**
   Two runs over the same files from empty tables. After the first, the counters are the sizes of the tables, every
   thread's count is that of its rows, and no two rows share an id or hash; the second adds nothing.
   */
  method LoadArchive(own: set<string>, files: seq<Mail>) returns (i: Ingest, first: Stats, ghost between: Tables)
    ensures fresh(i) && i.own == own && i.Valid()
    ensures Settled(between, files) && first.messages + first.skipped == |files|
    ensures first.messages == |between.messages| && first.clients == |between.clients|
    ensures first.calcs == |between.calcs| && first.facts == |between.facts|
    ensures ThreadsMatch(between.threads, between.messages) && Distinct(between.messages)
    ensures Unmoved(i.Snapshot(), between) && i.attachments.Keys == between.attachments.Keys
    ensures i.stats.messages == 0 && i.stats.skipped == |files|
    ensures i.stats.clients == 0 && i.stats.calcs == 0 && i.stats.facts == 0
  {
    i := new Ingest(own);
    i.Run(files);
    first, between := i.stats, i.Snapshot();
    hide Settled, Distinct, ThreadsMatch, OneClient;
    i.Run(files);
  }

  /** The client of a card and the tables after it was resolved. */
  function Resolved(cache: map<string, nat>, identities: map<(Kind, string), nat>, clients: seq<Card>, c: Card): nat {
    Lookup(cache, identities, clients, c).GetOr(|clients|)
  }

  function Enrolled(cache: map<string, nat>, identities: map<(Kind, string), nat>, clients: seq<Card>,
                    c: Card): seq<Card> {
    clients + if Lookup(cache, identities, clients, c).None? then [c] else []
  }

  /**
   An address seen for the first time in a run keeps its client in a later run, whatever the later card says of phone
   and INN, if and only if the address was known to the tables before, or neither the phone nor the INN was.
   */
  lemma AddressKeptExactly(cache: map<string, nat>, identities: map<(Kind, string), nat>, clients: seq<Card>, c: Card)
    requires c.email.Some? && c.email.value !in cache
    ensures var later := Identified(cache, identities, clients, c);
            var enrolled := Enrolled(cache, identities, clients, c);
            (forall again: Card :: again.email == c.email ==>
               Lookup(map[], later, enrolled, again) == Some(Resolved(cache, identities, clients, c)))
            <==> (Email, c.email.value) in identities || ByPrimary(clients, c.email.value).Some?
                 || (!(c.phone.Some? && (Phone, c.phone.value) in identities)
                     && !(c.inn.Some? && (Inn, c.inn.value) in identities))
  {
    var email := c.email.value;
    var enrolled := Enrolled(cache, identities, clients, c);
    if Lookup(cache, identities, clients, c).Some? {
      assert enrolled == clients;
    }
    if (Email, email) !in identities && ByPrimary(clients, email).None? && Lookup(cache, identities, clients, c).Some? {
      assert Lookup(map[], Identified(cache, identities, clients, c), enrolled, Card(c.email, None, None)).None?;
    }
  }

  /** The address of a client found by phone is kept for the run only; a later run takes it for a new client. */
  method AddressForgotten(i: Ingest, email: string, phone: string) returns (first: Option<nat>, later: Option<nat>)
    requires i.Valid() && email !in i.own && email !in i.cache && (Email, email) !in i.identities
    requires ByPrimary(i.clients, email).None? && (Phone, phone) in i.identities
    modifies i
    ensures first.Some? && later.Some? && first != later
  {
    var withPhone, without := Card(Some(email), Some(phone), None), Card(Some(email), None, None);
    assert Lookup(i.cache, i.identities, i.clients, withPhone) == Some(i.identities[(Phone, phone)]);
    first := i.ResolveOrCreateClient(withPhone);
    assert i.clients == old(i.clients) && i.identities == old(i.identities);
    i.cache := map[];
    assert Lookup(i.cache, i.identities, i.clients, without).None?;
    later := i.ResolveOrCreateClient(without);
  }
}
