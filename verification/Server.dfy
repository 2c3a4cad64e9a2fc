/** A tunnel's local server (src/async_server.c): its clients are kept in a hash table under their descriptors. */
module Server {
  import opened Bytes
  import opened HashTable
  import opened HashTableClass
  import opened Headers
  import opened Proto
  import opened Tokens
  import opened Wrappers

  /** `id` tells clients apart that had the same descriptor one after the other; `home` is the tunnel they came through. */
  datatype LocalClient = LocalClient(id: nat, fd: nat, home: nat)

  type ClientTable = t: Table<LocalClient> | |t| == HT_MAX witness EmptyTable<LocalClient>()

  /** Descriptors that fit the 8-byte key with its NUL. */
  const FD_LIMIT := 10_000_000

  // ----- keys

  /** connector_addclient prints the key into 8 bytes, async_client_shutdown into 16. */
  function AddKey(fd: nat): bytes { Snprintf(8, Decimal(fd)) }

  function RemKey(fd: nat): bytes { Snprintf(16, Decimal(fd)) }

  /** A client is looked for under the key it was registered with exactly when that has at most seven digits. */
  lemma KeysAgreeIff(fd: nat)
    ensures AddKey(fd) == RemKey(fd) <==> fd < FD_LIMIT
    ensures fd < FD_LIMIT ==> AddKey(fd) == Decimal(fd)
  {
    FdSurvivesPrint(fd);
    DecimalLength(fd, 7);
    assert Pow10(7) == 10_000_000;
  }

  lemma DecimalInjective(m: nat, n: nat)
    requires Decimal(m) == Decimal(n)
    ensures m == n
  {
    ValueDecimal(m);
    ValueDecimal(n);
  }

  lemma KeysIndexable(fd: nat)
    ensures Indexable(AddKey(fd)) && Indexable(RemKey(fd))
  {
    DecimalDigits(fd);
    DigitsIndexable(AddKey(fd));
    DigitsIndexable(RemKey(fd));
  }

  /** The bucket of a descriptor is the sum of its printed digits, as characters. */
  lemma BucketIsDigitSum(fd: nat)
    requires fd < FD_LIMIT
    ensures KeyIndex(AddKey(fd)) == KeySum(Decimal(fd))
  {
    KeysAgreeIff(fd);
    DecimalDigits(fd);
    DigitSumBounds(Decimal(fd));
    DecimalLength(fd, 7);
    hide Decimal, KeySum;
    assert Pow10(7) == 10_000_000;
    assert 0 <= KeySum(Decimal(fd)) <= 399;
  }

  /** Two descriptors share a bucket exactly when those sums are equal. */
  lemma SameBucketIff(fd: nat, fd': nat)
    requires fd < FD_LIMIT && fd' < FD_LIMIT
    ensures KeyIndex(AddKey(fd)) == KeyIndex(AddKey(fd')) <==> KeySum(Decimal(fd)) == KeySum(Decimal(fd'))
  {
    hide KeyIndex, AddKey, KeySum, Decimal;
    BucketIsDigitSum(fd);
    BucketIsDigitSum(fd');
  }

  /** 12 and 21 do. */
  lemma TwelveMeetsTwentyOne()
    ensures KeyIndex(AddKey(12)) == KeyIndex(AddKey(21))
  {
    assert Decimal(12) == [49, 50] && Decimal(21) == [50, 49];
    SumOfTwo(49, 50);
    SumOfTwo(50, 49);
    SameBucketIff(12, 21);
  }

  lemma SumOfTwo(a: nat, b: nat)
    requires 48 <= a <= 57 && 48 <= b <= 57
    ensures KeySum([a, b]) == a + b
  {
    assert [a, b][..1] == [a] && [a][..0] == [];
    assert KeySum([a]) == a;
  }

  /** Each client is in the table under its own key. */
  ghost predicate Registered(t: ClientTable)
  {
    WellFormed(t) &&
    forall b, i :: 0 <= b < HT_MAX && 0 <= i < |t[b]| ==> t[b][i].key == AddKey(t[b][i].value.fd)
  }

  // ----- adding and removing

  function WithClient(t: ClientTable, c: LocalClient): ClientTable
  {
    KeysIndexable(c.fd);
    AddAsWritten(t, AddKey(c.fd), c)
  }

  function RemShutdown(t: ClientTable, c: LocalClient): ClientTable
  {
    KeysIndexable(c.fd);
    RemAsWritten(t, RemKey(c.fd))
  }

  lemma AddRegisters(t: ClientTable, c: LocalClient)
    requires Registered(t)
    ensures Registered(WithClient(t, c))
  {
    var key := AddKey(c.fd);
    KeysIndexable(c.fd);
    AddRefines(t, key, c, key);
    var was := Bucket(t, key);
    if HasKey(was, key) {
      var i := FirstWith(was, key);
      ReplacedAt(was, key, c, i);
    }
  }

  lemma FirstWith(c: Chain<LocalClient>, key: bytes) returns (i: nat)
    requires HasKey(c, key)
    ensures i < |c| && c[i].key == key && forall j :: 0 <= j < i ==> c[j].key != key
  {
    i := 0;
    while c[i].key != key
      invariant i < |c| && forall j :: 0 <= j < i ==> c[j].key != key
      decreases |c| - i
    {
      assert exists k :: i < k < |c| && c[k].key == key;
      i := i + 1;
    }
  }

  lemma RemKeepsRegistered(t: ClientTable, c: LocalClient)
    requires Registered(t)
    ensures Registered(RemShutdown(t, c))
  {
    KeysIndexable(c.fd);
    RemAgreesIff(t, RemKey(c.fd));
  }

  /** The key of a longer descriptor is looked for in vain. */
  lemma LongKeyMissing(t: ClientTable, c: LocalClient)
    requires Registered(t) && c.fd >= FD_LIMIT
    ensures RemShutdown(t, c) == t
  {
    KeysIndexable(c.fd);
    DecimalLength(c.fd, 7);
    assert Pow10(7) == 10_000_000;
    hide Decimal, KeyIndex, Pow10;
    assert |RemKey(c.fd)| >= 8;
    assert forall fd :: |AddKey(fd)| <= 7;
  }

  // ----- shutdown

  /** The first client of each of the first n buckets. */
  function Heads(t: ClientTable, n: nat): seq<LocalClient>
    requires n <= HT_MAX
  {
    if n == 0 then [] else Heads(t, n - 1) + if t[n - 1] == [] then [] else [t[n - 1][0].value]
  }

  /** A bucket after its head is shut down. */
  function Emptied(c: Chain<LocalClient>): Chain<LocalClient>
  {
    if c != [] && c[0].value.fd >= FD_LIMIT then c else []
  }

  /** Shutting down the head of a bucket empties the bucket, if the head is found under its descriptor. */
  lemma HeadRemoved(t: ClientTable, b: int)
    requires Registered(t) && 0 <= b < HT_MAX && t[b] != []
    ensures RemShutdown(t, t[b][0].value) == t[b := Emptied(t[b])]
  {
    var p := t[b][0];
    assert KeyIndex(p.key) == b && p.key == AddKey(p.value.fd);
    if p.value.fd >= FD_LIMIT {
      LongKeyMissing(t, p.value);
    } else {
      KeysAgreeIff(p.value.fd);
    }
  }

  /** The table with its first n buckets shut down. */
  ghost function Swept(t: ClientTable, n: nat): (r: ClientTable)
  {
    seq(HT_MAX, b requires 0 <= b < HT_MAX => if b < n then Emptied(t[b]) else t[b])
  }

  lemma ShutdownStep(t: ClientTable, was: seq<LocalClient>, i: nat)
    requires i < HT_MAX
    ensures Swept(t, 0) == t && was + Heads(t, 0) == was
    ensures Swept(t, i)[i] == t[i] && Swept(t, i + 1) == Swept(t, i)[i := Emptied(t[i])]
    ensures was + Heads(t, i + 1) == (was + Heads(t, i)) + if t[i] == [] then [] else [t[i][0].value]
  {
  }

  class Server {
    const clients: Ht<LocalClient>
    /** The clients async_client_shutdown was called for, in order. */
    var shut: seq<LocalClient>
    /** The clients that were accepted and not shut down. */
    ghost var live: set<LocalClient>

    ghost predicate Valid()
      reads this, clients, clients.ht, clients.nodes
    {
      clients.Valid() && Registered(clients.view)
    }

    constructor ()
      ensures Valid() && clients.view == EmptyTable() && shut == [] && live == {}
    {
      clients := new Ht();
      shut, live := [], {};
    }

    /** connector_addclient */
    method AddClient(c: LocalClient)
      requires Valid()
      modifies this`live, clients`chains, clients`nodes, clients`view, clients.ht, clients.nodes
      ensures Valid() && clients.view == WithClient(old(clients.view), c) && live == old(live) + {c}
    {
      KeysIndexable(c.fd);
      AddRegisters(clients.view, c);
      clients.Add(AddKey(c.fd), c);
      live := live + {c};
    }

    /** async_client_shutdown of a client of this server. */
    method ClientShutdown(c: LocalClient)
      requires Valid()
      modifies this`shut, this`live, clients`chains, clients`view, clients.ht, clients.nodes
      ensures Valid() && clients.view == RemShutdown(old(clients.view), c)
      ensures shut == old(shut) + [c] && live == old(live) - {c}
    {
      KeysIndexable(c.fd);
      RemKeepsRegistered(clients.view, c);
      shut, live := shut + [c], live - {c};
      var _ := clients.Remove(RemKey(c.fd));
    }

    /** The loop of async_server_shutdown: the head of each bucket in turn, while the calls change the table. */
    method Shutdown()
      requires Valid()
      modifies this`shut, this`live, clients`chains, clients`view, clients.ht, clients.nodes
      ensures Valid() && clients.view == Swept(old(clients.view), HT_MAX)
      ensures shut == old(shut) + Heads(old(clients.view), HT_MAX)
      ensures live == old(live) - Members(Heads(old(clients.view), HT_MAX))
    {
      hide Registered, Heads, Swept, Ht.Chained, WellFormed;
      ghost var t: ClientTable, was := clients.view, shut;
      var i := 0;
      ShutdownStep(t, was, 0);
      while i < HT_MAX
        invariant 0 <= i <= HT_MAX && Valid()
        invariant clients.nodes == old(clients.nodes)
        invariant clients.view == Swept(t, i) && shut == was + Heads(t, i)
        invariant live == old(live) - Members(Heads(t, i))
      {
        ShutdownStep(t, was, i);
        HeadsStep(t, i, old(live));
        ShutdownBucket(i);
        i := i + 1;
      }
    }

    method ShutdownBucket(i: int)
      requires Valid() && 0 <= i < HT_MAX && |clients.view| == HT_MAX
      modifies this`shut, this`live, clients`chains, clients`view, clients.ht, clients.nodes
      ensures Valid() && clients.view == old(clients.view)[i := Emptied(old(clients.view)[i])]
      ensures clients.nodes == old(clients.nodes)
      ensures shut == old(shut) + if old(clients.view)[i] == [] then [] else [old(clients.view)[i][0].value]
      ensures live == old(live) - if old(clients.view)[i] == [] then {} else {old(clients.view)[i][0].value}
    {
      ghost var t: ClientTable := clients.view;
      assert clients.Chained(i);
      if clients.ht[i] != null {
        var c := clients.ht[i].s;
        assert c == t[i][0].value;
        HeadRemoved(t, i);
        ClientShutdown(c);
      } else {
        assert t[i := []] == t;
      }
    }
  }

  lemma HeadsStep(t: ClientTable, i: nat, live: set<LocalClient>)
    requires i < HT_MAX
    ensures Members(Heads(t, 0)) == {}
    ensures live - Members(Heads(t, i + 1))
      == live - Members(Heads(t, i)) - if t[i] == [] then {} else {t[i][0].value}
  {
  }

  // ----- the table and the clients that exist

  /** The table holds existing clients of one tunnel, whose descriptors fit their keys. */
  ghost predicate Kept(t: ClientTable, live: set<LocalClient>, home: nat)
  {
    && Registered(t)
    && forall b, i :: 0 <= b < HT_MAX && 0 <= i < |t[b]| ==>
         t[b][i].value in live && t[b][i].value.home == home && t[b][i].value.fd < FD_LIMIT
  }

  ghost predicate FdsDistinct(live: set<LocalClient>)
  {
    forall c, d :: c in live && d in live && c.fd == d.fd ==> c == d
  }

  /** The table has the client under its descriptor. */
  ghost predicate Has(t: ClientTable, c: LocalClient) { Lookup(t, AddKey(c.fd)) == Some(c) }

  predicate SameBucket(c: LocalClient, d: LocalClient) { KeyIndex(AddKey(c.fd)) == KeyIndex(AddKey(d.fd)) }

  lemma KeyIsDescriptor(fd: nat, fd': nat)
    requires fd < FD_LIMIT && fd' < FD_LIMIT && AddKey(fd) == AddKey(fd')
    ensures fd == fd'
  {
    KeysAgreeIff(fd);
    KeysAgreeIff(fd');
    DecimalInjective(fd, fd');
  }

  /** Each entry is the one its client is found under. */
  lemma EntryHas(t: ClientTable, b: int, i: int)
    requires Registered(t) && 0 <= b < HT_MAX && 0 <= i < |t[b]|
    ensures Has(t, t[b][i].value) && b == KeyIndex(AddKey(t[b][i].value.fd))
  {
    hide KeyIndex, AddKey;
    KeysIndexable(t[b][i].value.fd);
    FindAt(t[b], i);
  }

  lemma {:induction false} FindAt<V>(c: Chain<V>, i: int)
    requires Distinct(c) && 0 <= i < |c|
    ensures Find(c, c[i].key) == Some(c[i].value)
  {
    if i > 0 {
      assert c[0].key != c[i].key && c[1..][i - 1] == c[i];
      FindAt(c[1..], i - 1);
    }
  }

  lemma HasEntry(t: ClientTable, c: LocalClient) returns (i: nat)
    requires Registered(t) && Has(t, c)
    ensures Indexable(AddKey(c.fd)) && i < |Bucket(t, AddKey(c.fd))| && Bucket(t, AddKey(c.fd))[i].value == c
  {
    hide KeyIndex, AddKey;
    KeysIndexable(c.fd);
    i := FirstWith(Bucket(t, AddKey(c.fd)), AddKey(c.fd));
    FindAt(Bucket(t, AddKey(c.fd)), i);
  }

  /** No entry has the key of a client that is not in the table. */
  lemma KeyPresentIff(t: ClientTable, live: set<LocalClient>, home: nat, c: LocalClient)
    requires Kept(t, live, home) && FdsDistinct(live) && c.fd < FD_LIMIT
    requires c in live || forall d :: d in live ==> d.fd != c.fd
    ensures Indexable(AddKey(c.fd)) && (HasKey(Bucket(t, AddKey(c.fd)), AddKey(c.fd)) <==> Has(t, c))
  {
    hide KeyIndex, AddKey;
    KeysIndexable(c.fd);
    var key := AddKey(c.fd);
    var chain := Bucket(t, key);
    if HasKey(chain, key) {
      var i := FirstWith(chain, key);
      KeyIsDescriptor(chain[i].value.fd, c.fd);
      EntryHas(t, KeyIndex(key), i);
    }
  }

  /** connector_addclient of a client with a descriptor of its own: all others stay where they are. */
  lemma KeptAdd(t: ClientTable, live: set<LocalClient>, c: LocalClient)
    requires Kept(t, live, c.home) && FdsDistinct(live) && c.fd < FD_LIMIT && forall d :: d in live ==> d.fd != c.fd
    ensures Kept(WithClient(t, c), live + {c}, c.home) && Has(WithClient(t, c), c)
    ensures forall d :: d in live ==> (Has(WithClient(t, c), d) <==> Has(t, d))
  {
    hide KeyIndex, AddKey;
    KeyPresentIff(t, live, c.home, c);
    if Has(t, c) {
      var i := HasEntry(t, c);
      assert false;
    }
    AddRegisters(t, c);
    var key := AddKey(c.fd);
    var was, now := Bucket(t, key), Bucket(WithClient(t, c), key);
    assert now == [Binding(key, c)] + was;
    AddRefines(t, key, c, key);
    forall d | d in live && d.fd < FD_LIMIT
      ensures Has(WithClient(t, c), d) <==> Has(t, d)
    {
      if AddKey(d.fd) == key {
        KeyIsDescriptor(d.fd, c.fd);
      }
      AddRefines(t, key, c, AddKey(d.fd));
    }
  }

  lemma KeptLess(t: ClientTable, live: set<LocalClient>, less: set<LocalClient>, home: nat)
    requires Kept(t, live, home) && forall c :: c in live && c.home == home ==> c in less
    ensures Kept(t, less, home)
  {
  }

  /**
   * async_client_shutdown of an existing client: it is out of the table. If it was there, all others of its bucket are
   * out too; if not, nothing changes.
   */
  lemma KeptRem(t: ClientTable, live: set<LocalClient>, c: LocalClient)
    requires Kept(t, live, c.home) && FdsDistinct(live) && c in live && c.fd < FD_LIMIT
    ensures Kept(RemShutdown(t, c), live - {c}, c.home)
    ensures forall d :: d in live && d != c && d.fd < FD_LIMIT ==>
      (Has(RemShutdown(t, c), d) <==> Has(t, d) && !(Has(t, c) && SameBucket(c, d)))
  {
    hide KeyIndex, AddKey, RemKey, Find;
    KeyPresentIff(t, live, c.home, c);
    KeysAgreeIff(c.fd);
    RemKeepsRegistered(t, c);
    var r := RemShutdown(t, c);
    forall b, i | 0 <= b < HT_MAX && 0 <= i < |r[b]|
      ensures r[b][i].value != c
    {
      EntryHas(t, b, i);
    }
    forall d | d in live && d != c && d.fd < FD_LIMIT
      ensures Has(r, d) <==> Has(t, d) && !(Has(t, c) && SameBucket(c, d))
    {
      KeysIndexable(d.fd);
      NothingFound(AddKey(d.fd));
    }
  }

  lemma NothingFound(key: bytes)
    ensures Find<LocalClient>([], key) == None
  {
  }

  // ----- whom async_server_shutdown reaches

  lemma {:induction false} HeadsAt(t: ClientTable, n: nat, c: LocalClient)
    requires n <= HT_MAX
    ensures c in Heads(t, n) <==> exists b :: 0 <= b < n && t[b] != [] && t[b][0].value == c
  {
    if n > 0 {
      HeadsAt(t, n - 1, c);
    }
  }

  /** No client heads two buckets. */
  lemma HeadOnlyOnce(t: ClientTable, b: nat)
    requires Registered(t) && b < HT_MAX && t[b] != []
    ensures t[b][0].value !in Heads(t, b)
  {
    hide KeyIndex, AddKey, Heads, Registered, Find;
    var c := t[b][0].value;
    HeadsAt(t, b, c);
    EntryHas(t, b, 0);
    if c in Heads(t, b) {
      var k :| 0 <= k < b && t[k] != [] && t[k][0].value == c;
      EntryHas(t, k, 0);
    }
  }

  lemma {:induction false} HeadsOnce(t: ClientTable, n: nat)
    requires Registered(t) && n <= HT_MAX
    ensures multiset(Heads(t, n)) == multiset(Members(Heads(t, n)))
  {
    hide Registered, Heads, Members;
    if n == 0 {
      NobodyOnce(t);
    } else {
      HeadsOnce(t, n - 1);
      NextHead(t, n - 1);
      if t[n - 1] != [] {
        HeadOnlyOnce(t, n - 1);
        OneMember(Heads(t, n - 1), t[n - 1][0].value);
      }
    }
  }

  lemma NobodyOnce(t: ClientTable)
    ensures multiset(Heads(t, 0)) == multiset(Members(Heads(t, 0)))
  {
    assert Heads(t, 0) == [] && Members(Heads(t, 0)) == {};
  }

  lemma NextHead(t: ClientTable, b: nat)
    requires b < HT_MAX
    ensures Heads(t, b + 1) == if t[b] == [] then Heads(t, b) else Heads(t, b) + [t[b][0].value]
  {
    assert Heads(t, b) + [] == Heads(t, b);
  }

  lemma OneMember(cs: seq<LocalClient>, c: LocalClient)
    requires c !in cs && multiset(cs) == multiset(Members(cs))
    ensures multiset(cs + [c]) == multiset(Members(cs + [c]))
  {
    assert Members(cs + [c]) == Members(cs) + {c};
  }

  function Mine(live: set<LocalClient>, home: nat): set<LocalClient> { set c | c in live && c.home == home }

  predicate NoneShare(cs: set<LocalClient>) { forall c, d :: c in cs && d in cs && c != d ==> !SameBucket(c, d) }

  /**
   * async_server_shutdown shuts every existing client of the tunnel down, each once, exactly when the table still has
   * every one of them and no two share a bucket.
   */
  lemma ShutdownReachesIff(t: ClientTable, live: set<LocalClient>, home: nat)
    requires Kept(t, live, home) && FdsDistinct(live)
    ensures Members(Heads(t, HT_MAX)) <= Mine(live, home)
    ensures multiset(Heads(t, HT_MAX)) == multiset(Mine(live, home)) <==>
      (forall c :: c in Mine(live, home) ==> Has(t, c)) && NoneShare(Mine(live, home))
  {
    hide KeyIndex, AddKey, Heads, Find;
    var mine, hs := Mine(live, home), Heads(t, HT_MAX);
    HeadsOnce(t, HT_MAX);
    forall c
      ensures c in hs <==> exists b :: 0 <= b < HT_MAX && t[b] != [] && t[b][0].value == c
    {
      HeadsAt(t, HT_MAX, c);
    }
    if multiset(hs) == multiset(mine) {
      ReachedAre(t, mine);
    }
    if (forall c :: c in mine ==> Has(t, c)) && NoneShare(mine) {
      forall c | c in mine
        ensures c in Members(hs)
      {
        AloneIsHead(t, live, home, c);
      }
      assert Members(hs) == mine;
    }
  }

  lemma ReachedAre(t: ClientTable, mine: set<LocalClient>)
    requires Registered(t) && multiset(Heads(t, HT_MAX)) == multiset(mine)
    ensures (forall c :: c in mine ==> Has(t, c)) && NoneShare(mine)
  {
    hide KeyIndex, AddKey, Heads, Registered;
    forall c | c in mine
      ensures exists b :: 0 <= b < HT_MAX && t[b] != [] && t[b][0].value == c && Has(t, c) && b == KeyIndex(AddKey(c.fd))
    {
      assert c in multiset(Heads(t, HT_MAX));
      HeadsAt(t, HT_MAX, c);
      var b :| 0 <= b < HT_MAX && t[b] != [] && t[b][0].value == c;
      EntryHas(t, b, 0);
    }
  }

  lemma AloneIsHead(t: ClientTable, live: set<LocalClient>, home: nat, c: LocalClient)
    requires Kept(t, live, home) && c in Mine(live, home) && Has(t, c) && NoneShare(Mine(live, home))
    ensures exists b :: 0 <= b < HT_MAX && t[b] != [] && t[b][0].value == c
  {
    hide KeyIndex, AddKey, Find;
    var i := HasEntry(t, c);
    var b := KeyIndex(AddKey(c.fd));
    EntryHas(t, b, 0);
    assert t[b][0].value in Mine(live, home);
  }

  lemma KeptEmpty(live: set<LocalClient>, home: nat)
    ensures Kept(EmptyTable(), live, home) && Heads(EmptyTable(), HT_MAX) == []
  {
    EmptyRegisters();
    NoHeads(HT_MAX);
    hide Heads, Registered;
    NothingInEmpty();
  }

  lemma EmptyRegisters()
    ensures Registered(EmptyTable())
  {
    hide KeyIndex;
    EmptyRefines<LocalClient>();
  }

  lemma NothingInEmpty()
    ensures forall b :: 0 <= b < HT_MAX ==> EmptyTable<LocalClient>()[b] == []
  {
  }

  lemma {:induction false} NoHeads(n: nat)
    requires n <= HT_MAX
    ensures Heads(EmptyTable(), n) == []
  {
    if n > 0 {
      NoHeads(n - 1);
    }
  }
}
