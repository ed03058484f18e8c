/** The cache of application templates in front of the fetch from an application store. */
module TemplateCache {
  import opened Basics

  datatype AppTemplate = AppTemplate(name: string, versions: seq<string>)

  /** What a fetch depends on. */
  datatype Location = Location(url: string, branch: string, username: string, password: string)

  type Fetch = Result<seq<AppTemplate>, string>

  class AppStore {
    var name: string
    var url: string
    var branch: string
    var username: string
    var password: string
    var appTemplates: seq<AppTemplate>

    constructor (name: string, at: Location)
      ensures this.name == name && At() == at && appTemplates == []
    {
      this.name, url, branch, username, password := name, at.url, at.branch, at.username, at.password;
      appTemplates := [];
    }

    function Key(): string
      reads this
    {
      name
    }

    ghost function At(): Location
      reads this
    {
      Location(url, branch, username, password)
    }

    method Equals(b: AppStore) returns (equal: bool)
      ensures equal <==> At() == b.At()
    {
      if url != b.url { return false; }
      if branch != b.branch { return false; }
      if username != b.username { return false; }
      if password != b.password { return false; }
      return true;
    }
  }

  // ----- the cache as a value

  datatype Entry = Entry(at: Location, templates: seq<AppTemplate>)

  type Cache = map<string, Entry>

  predicate Hit(cache: Cache, name: string, at: Location) {
    name in cache && cache[name].at == at
  }

  /** The answer to a listing whose fetch, if it needs one, gives `fetched`. */
  function Answer(cache: Cache, name: string, at: Location, fetched: Fetch): Fetch {
    if Hit(cache, name, at) then Ok(cache[name].templates) else fetched
  }

  datatype Op = List(name: string, at: Location, fetched: Fetch) | Drop(name: string)

  /** The listing misses and its fetch succeeds. */
  predicate Stores(cache: Cache, op: Op, name: string) {
    op.List? && op.name == name && !Hit(cache, name, op.at) && op.fetched.Ok?
  }

  function After(cache: Cache, op: Op): Cache {
    if op.Drop? then cache - {op.name}
    else if Stores(cache, op, op.name) then cache[op.name := Entry(op.at, op.fetched.value)]
    else cache
  }

  function Run(ops: seq<Op>): Cache {
    if ops == [] then map[] else After(Run(ops[..|ops| - 1]), ops[|ops| - 1])
  }

  class Storer {
    var store: map<string, AppStore>

    /** Stores are kept under their keys. */
    ghost predicate Valid()
      reads this, store.Values
    {
      forall k :: k in store ==> store[k].name == k
    }

    ghost function Contents(): Cache
      reads this, store.Values
    {
      map k | k in store :: Entry(store[k].At(), store[k].appTemplates)
    }

    constructor ()
      ensures Valid() && Contents() == Run([])
    {
      store := map[];
    }

    method Resync(key: string)
      requires Valid()
      modifies this
      ensures Valid() && Contents() == old(Contents()) - {key} == After(old(Contents()), Drop(key))
      ensures store.Values <= old(store.Values)
    {
      store := store - {key};
    }

    method DeleteAppTemplates(key: string)
      requires Valid()
      modifies this
      ensures Valid() && Contents() == old(Contents()) - {key} == After(old(Contents()), Drop(key))
      ensures store.Values <= old(store.Values)
    {
      store := store - {key};
    }

    /** Lists the templates of a store; a fetch that is needed gives `fetched`. What is stored under the
        name for the same location is answered and nothing changes; otherwise the fetch is answered and,
        if it succeeds, replaces whatever is stored under the name. A stored object is never written,
        since a listing of it is a hit. */
    method ListAppTemplates(appStore: AppStore, fetched: Fetch) returns (answer: Fetch)
      requires Valid()
      modifies this, appStore
      ensures Valid()
      ensures var name := old(appStore.name);
        if name in old(store) && old(Contents())[name].at == old(appStore.At())
        then answer == Ok(old(Contents())[name].templates)
        else answer == fetched
      ensures var name := old(appStore.name);
        if (name in old(store) && old(Contents())[name].at == old(appStore.At())) || fetched.Err?
        then
          store == old(store) && Contents() == old(Contents()) &&
          appStore.appTemplates == old(appStore.appTemplates)
        else
          store == old(store)[name := appStore] && appStore.appTemplates == fetched.value &&
          Contents() == old(Contents())[name := Entry(old(appStore.At()), fetched.value)]
      ensures appStore.name == old(appStore.name) && appStore.At() == old(appStore.At())
      ensures answer == Answer(old(Contents()), old(appStore.name), old(appStore.At()), fetched)
      ensures Contents() == After(old(Contents()), List(old(appStore.name), old(appStore.At()), fetched))
    {
      if appStore.Key() in store {
        var appStore0 := store[appStore.Key()];
        var equal := appStore0.Equals(appStore);
        if equal {
          return Ok(appStore0.appTemplates);
        }
      }
      if fetched.Err? {
        return fetched;
      }
      assert appStore !in store.Values;
      appStore.appTemplates := fetched.value;
      store := store[appStore.Key() := appStore];
      return fetched;
    }
  }

  // ----- what a hit returns, over every run of listings, resyncs and deletions

  /** What operation `i` was answered, if it is a listing. */
  function AnswerAt(ops: seq<Op>, i: nat): Fetch
    requires i < |ops| && ops[i].List?
  {
    Answer(Run(ops[..i]), ops[i].name, ops[i].at, ops[i].fetched)
  }

  /** Operation `i` dropped the name, or listed it with success. */
  predicate Settles(ops: seq<Op>, i: int, name: string) {
    0 <= i < |ops| && ops[i].name == name && (ops[i].List? ==> AnswerAt(ops, i).Ok?)
  }

  /** Operation `i` is the last that dropped the name or listed it with success. */
  predicate LastSettles(ops: seq<Op>, i: int, name: string) {
    Settles(ops, i, name) && forall j :: i < j < |ops| ==> !Settles(ops, j, name)
  }

  lemma SettlesLater(ops: seq<Op>, i: int, name: string)
    requires ops != [] && i < |ops| - 1
    ensures Settles(ops[..|ops| - 1], i, name) <==> Settles(ops, i, name)
  {
    if 0 <= i { assert ops[..|ops| - 1][..i] == ops[..i]; }
  }

  lemma {:induction false} SettledIsStored(ops: seq<Op>, i: nat, name: string)
    requires LastSettles(ops, i, name)
    ensures if ops[i].Drop? then name !in Run(ops)
      else name in Run(ops) && Run(ops)[name].at == ops[i].at && Ok(Run(ops)[name].templates) == AnswerAt(ops, i)
  {
    var n := |ops| - 1;
    if i < n {
      SettlesLater(ops, i, name);
      forall j | i < j < n
        ensures !Settles(ops[..n], j, name)
      {
        SettlesLater(ops, j, name);
      }
      SettledIsStored(ops[..n], i, name);
      assert ops[..n][..i] == ops[..i];
      assert !Settles(ops, n, name);
    }
  }

  lemma {:induction false} StoredIsSettled(ops: seq<Op>, name: string) returns (i: nat)
    requires name in Run(ops)
    ensures LastSettles(ops, i, name)
  {
    var n := |ops| - 1;
    if Settles(ops, n, name) {
      i := n;
    } else {
      i := StoredIsSettled(ops[..n], name);
      forall j: int | j < n
        ensures Settles(ops[..n], j, name) <==> Settles(ops, j, name)
      {
        SettlesLater(ops, j, name);
      }
    }
  }

  /** A listing hits exactly if the last operation that dropped its name or listed it with success was a
      listing of the same URL, branch and credentials. */
  lemma HitIffListed(ops: seq<Op>, name: string, at: Location)
    ensures Hit(Run(ops), name, at) <==> exists i :: LastSettles(ops, i, name) && ops[i].List? && ops[i].at == at
  {
    if Hit(Run(ops), name, at) {
      var i := StoredIsSettled(ops, name);
      SettledIsStored(ops, i, name);
    }
    if i: nat :| LastSettles(ops, i, name) && ops[i].List? && ops[i].at == at {
      SettledIsStored(ops, i, name);
    }
  }

  /** And it answers what that listing was answered; every other listing answers what its fetch gives. */
  lemma AnswersAre(ops: seq<Op>, name: string, at: Location, fetched: Fetch)
    ensures forall i: nat :: LastSettles(ops, i, name) && ops[i].List? && ops[i].at == at ==>
      Answer(Run(ops), name, at, fetched) == AnswerAt(ops, i)
    ensures (!exists i :: LastSettles(ops, i, name) && ops[i].List? && ops[i].at == at) ==>
      Answer(Run(ops), name, at, fetched) == fetched
  {
    HitIffListed(ops, name, at);
    forall i: nat | LastSettles(ops, i, name) && ops[i].List? && ops[i].at == at
      ensures Answer(Run(ops), name, at, fetched) == AnswerAt(ops, i)
    {
      SettledIsStored(ops, i, name);
    }
  }

  /** What was listed with success is what the next listing of the same name and location is answered. */
  lemma ListedIsStored(ops: seq<Op>, name: string, at: Location, fetched: Fetch)
    requires Answer(Run(ops), name, at, fetched).Ok?
    ensures var after := Run(ops + [List(name, at, fetched)]);
      name in after && after[name] == Entry(at, Answer(Run(ops), name, at, fetched).value)
  {
    var op := List(name, at, fetched);
    assert (ops + [op])[..|ops|] == ops;
  }

  /** Its answer was fetched by a listing of the same name and location. */
  lemma {:induction false} AnswerWasFetched(ops: seq<Op>, i: nat) returns (k: nat)
    requires i < |ops| && ops[i].List? && AnswerAt(ops, i).Ok?
    ensures k <= i && ops[k].List? && ops[k].name == ops[i].name && ops[k].at == ops[i].at
    ensures ops[k].fetched == AnswerAt(ops, i)
    ensures forall j :: k <= j < i ==> ops[j] != Drop(ops[i].name)
    decreases i
  {
    var before, name := ops[..i], ops[i].name;
    if Hit(Run(before), name, ops[i].at) {
      var last := StoredIsSettled(before, name);
      SettledIsStored(before, last, name);
      assert before[..last] == ops[..last];
      k := AnswerWasFetched(ops, last);
      forall j | last < j < i
        ensures ops[j] != Drop(name)
      {
        assert !Settles(before, j, name);
      }
    } else {
      k := i;
    }
  }

  /** All listings of the run fetch from the same remote stores. */
  predicate FetchesFrom(ops: seq<Op>, remote: Location -> Fetch) {
    forall i :: 0 <= i < |ops| && ops[i].List? ==> ops[i].fetched == remote(ops[i].at)
  }

  /** The stored templates are those of the remote stores. */
  ghost predicate Faithful(cache: Cache, remote: Location -> Fetch) {
    forall name :: name in cache ==> remote(cache[name].at) == Ok(cache[name].templates)
  }

  /** While the remote stores do not change, the cache cannot be observed: it answers what a fetch would. */
  lemma {:induction false} CacheIsTransparent(ops: seq<Op>, remote: Location -> Fetch, name: string, at: Location)
    requires FetchesFrom(ops, remote)
    ensures Answer(Run(ops), name, at, remote(at)) == remote(at)
  {
    if Hit(Run(ops), name, at) {
      var i := StoredIsSettled(ops, name);
      SettledIsStored(ops, i, name);
      var k := AnswerWasFetched(ops, i);
    }
  }

  // ----- a caller that edits a store object it listed

  function Edited(cache: Cache, name: string, to: Location): Cache {
    if name in cache then cache[name := cache[name].(at := to)] else cache
  }

  /** The update of a store writes its location into the object at hand, which is the stored one if
      listing it just missed. */
  method EditStore(storer: Storer, appStore: AppStore, to: Location)
    requires storer.Valid()
    modifies appStore
    ensures storer.Valid() && appStore.At() == to
    ensures storer.Contents() ==
      if appStore in storer.store.Values then Edited(old(storer.Contents()), appStore.name, to)
      else old(storer.Contents())
  {
    appStore.url := to.url;
    appStore.branch := to.branch;
    appStore.username := to.username;
    appStore.password := to.password;
  }

  /** Whatever the remote stores hold, the edit leaves a faithful cache faithful. */
  ghost predicate SafeEdit(cache: Cache, name: string, to: Location) {
    forall remote :: Faithful(cache, remote) ==> Faithful(Edited(cache, name, to), remote)
  }

  /** What a caller can see in the cache: the location stays, or some entry shows that the new one
      has the same templates. */
  predicate VisiblySafe(cache: Cache, name: string, to: Location)
    requires name in cache
  {
    to == cache[name].at || Entry(to, cache[name].templates) in cache.Values
  }

  /** An edit of the stored object is safe exactly if the cache itself shows it. */
  lemma EditIsSafeIff(cache: Cache, name: string, to: Location, remote: Location -> Fetch)
    requires name in cache && Faithful(cache, remote)
    ensures SafeEdit(cache, name, to) <==> VisiblySafe(cache, name, to)
  {
    var entry := Entry(to, cache[name].templates);
    if VisiblySafe(cache, name, to) {
      forall other: Location -> Fetch | Faithful(cache, other)
        ensures Faithful(Edited(cache, name, to), other)
      {
        EditKeepsFaithfulIff(cache, name, to, other);
      }
    } else {
      UnseenEditIsUnsafe(cache, name, to, remote);
    }
  }

  lemma UnseenEditIsUnsafe(cache: Cache, name: string, to: Location, remote: Location -> Fetch)
    requires name in cache && Faithful(cache, remote) && !VisiblySafe(cache, name, to)
    ensures !SafeEdit(cache, name, to)
  {
    var other: Location -> Fetch;
    if n :| n in cache && cache[n].at == to {
      assert cache[n].templates != cache[name].templates;
      other := remote;
    } else {
      other := at => if at == to then Err("unknown") else remote(at);
    }
    assert Faithful(cache, other) && other(to) != Ok(cache[name].templates);
    EditKeepsFaithfulIff(cache, name, to, other);
  }

  /** With given remote stores, the edit keeps the cache faithful exactly if the new location has the same templates. */
  lemma EditKeepsFaithfulIff(cache: Cache, name: string, to: Location, remote: Location -> Fetch)
    requires Faithful(cache, remote) && name in cache
    ensures Faithful(Edited(cache, name, to), remote) <==> remote(to) == remote(cache[name].at)
  {
    assert Edited(cache, name, to)[name] == Entry(to, cache[name].templates);
  }

  /** After a miss, an edit of the listed object and a listing at the new location, the templates of
      the old location are returned. */
  method EditServesStaleTemplates(storer: Storer, name: string, from: Location, to: Location,
    before: seq<AppTemplate>, after: Fetch)
    returns (answer: Fetch)
    requires storer.Valid() && name !in storer.store
    modifies storer
    ensures answer == Ok(before)
  {
    var listed := new AppStore(name, from);
    var first := storer.ListAppTemplates(listed, Ok(before));
    EditStore(storer, listed, to);
    var again := new AppStore(name, to);
    answer := storer.ListAppTemplates(again, after);
  }
}
