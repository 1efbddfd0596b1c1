/** The gem reconciliation engine (current version): it normalises titles and
    term names into comparison keys, caches the remote taxonomy and gem
    indexes, provisions missing terms, resolves each gem's remote id,
    fingerprints the exact payload and decides skip, update or create.

    The remote store is an oracle: `replies` are its answers to the engine's
    POST requests, in the order they are issued, and `sent` records every
    request. md5 over the sorted JSON payload is the parameter `hash`, an
    abstract deterministic function. */
module PublishGem {
  import opened Common
  import LayoutEngine

  // =====================================================================
  // Normaliser
  // =====================================================================

  /** `re.sub(r'[^a-z0-9]', '', s)` */
  function KeepKeyChars(s: string): (r: string)
    ensures forall i :: 0 <= i < |r| ==> IsKeyChar(r[i])
  {
    if s == [] then []
    else (if IsKeyChar(s[0]) then [s[0]] else []) + KeepKeyChars(s[1..])
  }

  lemma {:induction false} KeepKeyCharsFixes(s: string)
    requires forall i :: 0 <= i < |s| ==> IsKeyChar(s[i])
    ensures KeepKeyChars(s) == s
  {
    if s != [] {
      assert s == [s[0]] + s[1..];
      KeepKeyCharsFixes(s[1..]);
    }
  }

  /** `simplify_key`: the comparison key of a display string. */
  function SimplifyKey(text: string): (k: string)
    ensures text == "" ==> k == ""
    ensures forall i :: 0 <= i < |k| ==> IsKeyChar(k[i])
  {
    if text == "" then "" else KeepKeyChars(Lower(Unescape(text)))
  }

  /** Normalising a key again changes nothing. */
  lemma SimplifyKeyIdempotent(text: string)
    ensures SimplifyKey(SimplifyKey(text)) == SimplifyKey(text)
  {
    var k := SimplifyKey(text);
    if k != "" {
      assert forall i :: 0 <= i < |k| ==> k[i] != '&';
      assert '&' !in k;
      UnescapePlain(k);
      assert Lower(k) == k;
      KeepKeyCharsFixes(k);
    }
  }

  // =====================================================================
  // Records, payloads, requests and the store's replies
  // =====================================================================

  datatype Index = CategoryIndex | TagIndex | GemIndex

  /** The two indexes that `get_term_id` provisions into. */
  type Taxonomy = ix: Index | ix != GemIndex witness CategoryIndex

  /** A declared gem. A missing `content`, `categories`, `tags` or `meta` key
      is the empty value, which the source treats the same way. */
  datatype Gem = Gem(
    title: string,
    status: string,
    id: Option<int>,
    content: string,
    categories: seq<string>,
    tags: seq<string>,
    meta: map<string, string>,
    cardGrid: Option<seq<LayoutEngine.Card>>)

  datatype Meta = Meta(gemCategory: string, gemStatus: string, gemActionItem: string, gemRelatedProject: string)

  /** The exact structure that is transmitted and fingerprinted. */
  datatype Payload = Payload(
    title: string, content: string, status: string,
    categories: seq<int>, tags: seq<int>, meta: Meta)

  datatype Request =
    | CreateTerm(index: Index, name: string)
    | CreateGem(payload: Payload)
    | UpdateGem(id: int, payload: Payload)

  predicate IsWrite(r: Request) { r.CreateGem? || r.UpdateGem? }

  /** A reply of the store: its status code and the `id` of its JSON body, or
      an exception raised by the request. */
  datatype Reply = Answer(status: int, id: int) | Raised

  /** One page of a listing, or an exception while fetching or decoding it. */
  datatype PageReply = Page(status: int, items: seq<Item>) | PageRaised

  /** A listed item: its `name`, its `title.rendered`, its `id` (each may be missing). */
  datatype Item = Item(name: Option<string>, rendered: Option<string>, id: Option<int>)

  /** The key of `state` for a remote id: `str(id)`. */
  function IdKey(id: int): string { IntToString(id) }

  /** Everything the engine reads and changes: the three module caches, the
      fingerprint state and its file, the pending replies and the requests made. */
  datatype Engine = Engine(
    categories: map<string, int>,
    tags: map<string, int>,
    gems: map<string, int>,
    state: map<string, string>,
    stateFile: StateFile,
    replies: seq<Reply>,
    sent: seq<Request>)

  function CacheOf(e: Engine, ix: Index): map<string, int> {
    match ix
    case CategoryIndex => e.categories
    case TagIndex => e.tags
    case GemIndex => e.gems
  }

  function WithCache(e: Engine, ix: Index, m: map<string, int>): (r: Engine)
    ensures CacheOf(r, ix) == m
  {
    match ix
    case CategoryIndex => e.(categories := m)
    case TagIndex => e.(tags := m)
    case GemIndex => e.(gems := m)
  }

  /** Issue one request: the store answers with its next reply; when it has none
      left, the request raises. */
  function Call(e: Engine, req: Request): (Reply, Engine) {
    if e.replies == [] then (Raised, e.(sent := e.sent + [req]))
    else (e.replies[0], e.(replies := e.replies[1..], sent := e.sent + [req]))
  }

  // =====================================================================
  // State store
  // =====================================================================

  /** `load_state`: a missing file is the empty map; an unreadable one makes
      `json.load` raise, which ends the run (`None`). */
  function LoadState(f: StateFile): (r: Option<map<string, string>>)
    ensures f.Missing? ==> r == Some(map[])
    ensures f.Stored? ==> r == Some(f.entries)
    ensures f.Unreadable? ==> r.None?
  {
    match f
    case Missing => Some(map[])
    case Stored(m) => Some(m)
    case Unreadable => None
  }

  /** The state file agrees with the state in memory (or no file exists yet and the state is empty). */
  predicate Persisted(e: Engine) {
    e.stateFile == Stored(e.state) || (e.stateFile == Missing && e.state == map[])
  }

  // =====================================================================
  // Index caches
  // =====================================================================

  function RawName(it: Item): Option<string> {
    if Truthy(it.name) then it.name else it.rendered
  }

  /** The items of one page inserted into a cache, in order. The flag is false
      when an item without `id` raised and ended the whole listing. */
  function CacheItems(m: map<string, int>, items: seq<Item>): (map<string, int>, bool)
  {
    if items == [] then (m, true)
    else
      var (m1, ok) := CacheItems(m, items[..|items| - 1]);
      var it := items[|items| - 1];
      if !ok then (m1, false)
      else if !Truthy(RawName(it)) then (m1, true)
      else if it.id.None? then (m1, false)
      else (m1[SimplifyKey(RawName(it).value) := it.id.value], true)
  }

  /** `build_cache` over the answered pages. The flag is true while the listing
      would go on to the next page; a page beyond the oracle's is an error. */
  function CachePages(m: map<string, int>, pages: seq<PageReply>): (map<string, int>, bool)
  {
    if pages == [] then (m, true)
    else
      var (m1, going) := CachePages(m, pages[..|pages| - 1]);
      if !going then (m1, false)
      else
        match pages[|pages| - 1]
        case PageRaised => (m1, false)
        case Page(status, items) =>
          if status != 200 || items == [] then (m1, false) else CacheItems(m1, items)
  }

  predicate KeysNormalised(m: map<string, int>) {
    forall k :: k in m ==> SimplifyKey(k) == k
  }

  lemma {:induction false} CacheItemsGrows(m: map<string, int>, items: seq<Item>)
    ensures m.Keys <= CacheItems(m, items).0.Keys
    ensures KeysNormalised(m) ==> KeysNormalised(CacheItems(m, items).0)
  {
    if items != [] {
      CacheItemsGrows(m, items[..|items| - 1]);
      var it := items[|items| - 1];
      if Truthy(RawName(it)) { SimplifyKeyIdempotent(RawName(it).value); }
    }
  }

  /** Caching only adds keys, and every key it adds is a normalised key. */
  lemma {:induction false} CachePagesGrows(m: map<string, int>, pages: seq<PageReply>)
    ensures m.Keys <= CachePages(m, pages).0.Keys
    ensures KeysNormalised(m) ==> KeysNormalised(CachePages(m, pages).0)
  {
    if pages != [] {
      CachePagesGrows(m, pages[..|pages| - 1]);
      var (m1, going) := CachePages(m, pages[..|pages| - 1]);
      if going && pages[|pages| - 1].Page? {
        CacheItemsGrows(m1, pages[|pages| - 1].items);
      }
    }
  }

  /** A listing whose first page is not a non-empty 200 page caches nothing. */
  lemma CacheFirstPageFails(m: map<string, int>, pages: seq<PageReply>)
    requires pages != [] && (pages[0].PageRaised? || pages[0].status != 200 || pages[0].items == [])
    ensures CachePages(m, pages).0 == m
  {
    CacheStopped(m, pages, 1);
    CachePagesStopped(m, pages, 1);
  }

  lemma {:induction false} CacheStopped(m: map<string, int>, pages: seq<PageReply>, n: nat)
    requires 1 <= n <= |pages|
    requires pages[0].PageRaised? || pages[0].status != 200 || pages[0].items == []
    ensures CachePages(m, pages[..n]) == (m, false)
  {
    if n == 1 {
      assert pages[..1][..0] == [];
    } else {
      assert pages[..n][..n - 1] == pages[..n - 1];
      CacheStopped(m, pages, n - 1);
    }
    assert pages[..|pages|] == pages;
  }

  // =====================================================================
  // Taxonomy resolver
  // =====================================================================

  /** `get_term_id`: a cached key answers at once; otherwise one create request,
      whose 201 reply is cached under the key. */
  function TermId(e: Engine, ix: Taxonomy, name: string): (Option<int>, Engine) {
    var key := SimplifyKey(name);
    var m := CacheOf(e, ix);
    if key in m then (Some(m[key]), e)
    else
      var (reply, e1) := Call(e, CreateTerm(ix, name));
      if reply.Answer? && reply.status == 201 then (Some(reply.id), WithCache(e1, ix, m[key := reply.id]))
      else (None, e1)
  }

  /** A cache hit returns the cached id and issues no request. */
  lemma TermIdHit(e: Engine, ix: Taxonomy, name: string)
    requires SimplifyKey(name) in CacheOf(e, ix)
    ensures TermId(e, ix, name) == (Some(CacheOf(e, ix)[SimplifyKey(name)]), e)
  {
  }

  /** A miss answered with 201 caches the new id, so a later name with the same key reuses it. */
  lemma TermIdCreated(e: Engine, ix: Taxonomy, name: string, other: string)
    requires SimplifyKey(name) !in CacheOf(e, ix)
    requires e.replies != [] && e.replies[0].Answer? && e.replies[0].status == 201
    requires SimplifyKey(other) == SimplifyKey(name)
    ensures var (r, e1) := TermId(e, ix, name);
      && r == Some(e.replies[0].id)
      && CacheOf(e1, ix) == CacheOf(e, ix)[SimplifyKey(name) := e.replies[0].id]
      && e1.sent == e.sent + [CreateTerm(ix, name)]
      && TermId(e1, ix, other) == (r, e1)
  {
  }

  /** Any other outcome of a miss returns None and leaves every cache and the state unchanged. */
  lemma TermIdNotCreated(e: Engine, ix: Taxonomy, name: string)
    requires SimplifyKey(name) !in CacheOf(e, ix)
    requires e.replies == [] || e.replies[0] == Raised || e.replies[0].status != 201
    ensures var (r, e1) := TermId(e, ix, name);
      && r == None
      && e1.categories == e.categories && e1.tags == e.tags && e1.gems == e.gems
      && e1.state == e.state && e1.stateFile == e.stateFile
      && e1.sent == e.sent + [CreateTerm(ix, name)]
  {
  }

  /** The id list of lines 137-147: every truthy resolved id, in input order. */
  function ResolveTerms(e: Engine, ix: Taxonomy, names: seq<string>): (seq<int>, Engine)
  {
    if names == [] then ([], e)
    else
      var (ids, e1) := ResolveTerms(e, ix, names[..|names| - 1]);
      var (cid, e2) := TermId(e1, ix, names[|names| - 1]);
      if cid.Some? && cid.value != 0 then (ids + [cid.value], e2) else (ids, e2)
  }

  /** Sub-map order: every entry of `a` is in `b`, unchanged. */
  predicate Extends(a: map<string, int>, b: map<string, int>) {
    forall k :: k in a ==> k in b && b[k] == a[k]
  }

  /** One lookup touches only its own cache, which only grows, and issues at most one term request. */
  lemma TermIdFacts(e: Engine, ix: Taxonomy, name: string)
    ensures var (r, e1) := TermId(e, ix, name);
      && Extends(CacheOf(e, ix), CacheOf(e1, ix))
      && (r.Some? ==> r.value in CacheOf(e1, ix).Values)
      && Frame(e, e1, ix)
  {
    var key := SimplifyKey(name);
    var (r, e1) := TermId(e, ix, name);
    if key in CacheOf(e, ix) {
      assert CacheOf(e1, ix)[key] == r.value;
    } else if r.Some? {
      assert CacheOf(e1, ix)[key] == r.value;
    }
    TermIdFrame(e, ix, name);
  }

  lemma TermIdFrame(e: Engine, ix: Taxonomy, name: string)
    ensures Frame(e, TermId(e, ix, name).1, ix)
  {
    if SimplifyKey(name) !in CacheOf(e, ix) {
      var (reply, e1) := Call(e, CreateTerm(ix, name));
      CallFrame(e, ix, name);
      if reply.Answer? && reply.status == 201 {
        CacheFrame(e1, ix, CacheOf(e, ix)[SimplifyKey(name) := reply.id]);
        FrameTrans(e, e1, WithCache(e1, ix, CacheOf(e, ix)[SimplifyKey(name) := reply.id]), ix);
      }
    }
  }

  lemma CallFrame(e: Engine, ix: Taxonomy, name: string)
    ensures Frame(e, Call(e, CreateTerm(ix, name)).1, ix)
  {
    var e1 := Call(e, CreateTerm(ix, name)).1;
    assert e1.sent == e.sent + [CreateTerm(ix, name)];
  }

  lemma CacheFrame(e: Engine, ix: Taxonomy, m: map<string, int>)
    ensures Frame(e, WithCache(e, ix, m), ix)
  {
  }

  /** `e1` differs from `e` only in the `ix` cache, the replies and appended term requests. */
  predicate Frame(e: Engine, e1: Engine, ix: Taxonomy) {
    && e1.gems == e.gems && e1.state == e.state && e1.stateFile == e.stateFile
    && (ix == CategoryIndex ==> e1.tags == e.tags)
    && (ix == TagIndex ==> e1.categories == e.categories)
    && e.sent <= e1.sent
    && (forall j :: |e.sent| <= j < |e1.sent| ==> e1.sent[j].CreateTerm?)
  }

  lemma FrameTrans(e: Engine, e1: Engine, e2: Engine, ix: Taxonomy)
    requires Frame(e, e1, ix) && Frame(e1, e2, ix)
    ensures Frame(e, e2, ix)
  {
    forall j | |e.sent| <= j < |e2.sent| ensures e2.sent[j].CreateTerm? {
      if j < |e1.sent| { assert e2.sent[j] == e1.sent[j]; }
    }
  }

  /** Resolving terms only touches its own cache, which only grows, and every
      returned id is a truthy id of that cache; nothing but term requests is issued. */
  lemma {:induction false} ResolveTermsFacts(e: Engine, ix: Taxonomy, names: seq<string>)
    ensures var (ids, e1) := ResolveTerms(e, ix, names);
      && Extends(CacheOf(e, ix), CacheOf(e1, ix))
      && (forall i :: 0 <= i < |ids| ==> ids[i] != 0 && ids[i] in CacheOf(e1, ix).Values)
      && |ids| <= |names|
      && Frame(e, e1, ix)
  {
    if names != [] {
      var init := names[..|names| - 1];
      var last := names[|names| - 1];
      ResolveTermsFacts(e, ix, init);
      var r0 := ResolveTerms(e, ix, init);
      var ids0, e0 := r0.0, r0.1;
      TermIdFacts(e0, ix, last);
      var t := TermId(e0, ix, last);
      var cid, e1 := t.0, t.1;
      var ids := if cid.Some? && cid.value != 0 then ids0 + [cid.value] else ids0;
      assert ResolveTerms(e, ix, names) == (ids, e1);
      FrameTrans(e, e0, e1, ix);
      forall i | 0 <= i < |ids| ensures ids[i] != 0 && ids[i] in CacheOf(e1, ix).Values {
        if i < |ids0| {
          assert ids[i] == ids0[i];
          var kk :| kk in CacheOf(e0, ix) && CacheOf(e0, ix)[kk] == ids0[i];
          assert CacheOf(e1, ix)[kk] == ids0[i];
        }
      }
    }
  }

  /** What each name's own `get_term_id` call returns, in name order. */
  function Lookups(e: Engine, ix: Taxonomy, names: seq<string>): (r: seq<Option<int>>)
    ensures |r| == |names|
  {
    if names == [] then []
    else Lookups(e, ix, names[..|names| - 1]) + [TermId(ResolveTerms(e, ix, names[..|names| - 1]).1, ix, names[|names| - 1]).0]
  }

  /** `if cid: ids.append(cid)`: the truthy results, in order. */
  function TruthyIds(rs: seq<Option<int>>): seq<int> {
    if rs == [] then []
    else
      var last := rs[|rs| - 1];
      TruthyIds(rs[..|rs| - 1]) + (if last.Some? && last.value != 0 then [last.value] else [])
  }

  /** One lookup: an id it returns is the one its key then holds in the cache; a
      lookup that returns none found the key uncached. */
  lemma TermIdResult(e: Engine, ix: Taxonomy, name: string)
    ensures TermId(e, ix, name).0.Some? ==>
      SimplifyKey(name) in CacheOf(TermId(e, ix, name).1, ix) &&
      TermId(e, ix, name).0.value == CacheOf(TermId(e, ix, name).1, ix)[SimplifyKey(name)]
    ensures TermId(e, ix, name).0.None? ==> SimplifyKey(name) !in CacheOf(e, ix)
  {
  }

  lemma {:induction false} ResolveTermsTruthy(e: Engine, ix: Taxonomy, names: seq<string>)
    ensures ResolveTerms(e, ix, names).0 == TruthyIds(Lookups(e, ix, names))
  {
    if names != [] {
      var init := names[..|names| - 1];
      ResolveTermsTruthy(e, ix, init);
      assert Lookups(e, ix, names)[..|names| - 1] == Lookups(e, ix, init);
    }
  }

  lemma {:induction false} ResolveTermsHits(e: Engine, ix: Taxonomy, names: seq<string>)
    ensures forall i :: 0 <= i < |names| && Lookups(e, ix, names)[i].Some? ==>
      SimplifyKey(names[i]) in CacheOf(ResolveTerms(e, ix, names).1, ix) &&
      Lookups(e, ix, names)[i].value == CacheOf(ResolveTerms(e, ix, names).1, ix)[SimplifyKey(names[i])]
  {
    if names != [] {
      var init := names[..|names| - 1];
      var last := names[|names| - 1];
      ResolveTermsHits(e, ix, init);
      var e0 := ResolveTerms(e, ix, init).1;
      TermIdFacts(e0, ix, last);
      TermIdResult(e0, ix, last);
      var e1 := TermId(e0, ix, last).1;
      assert ResolveTerms(e, ix, names).1 == e1;
      var ls := Lookups(e, ix, names);
      forall i | 0 <= i < |names| && ls[i].Some?
        ensures SimplifyKey(names[i]) in CacheOf(e1, ix) && ls[i].value == CacheOf(e1, ix)[SimplifyKey(names[i])]
      {
        if i < |init| {
          assert names[i] == init[i] && ls[i] == Lookups(e, ix, init)[i];
        }
      }
    }
  }

  lemma {:induction false} ResolveTermsMisses(e: Engine, ix: Taxonomy, names: seq<string>)
    ensures forall i :: 0 <= i < |names| && Lookups(e, ix, names)[i].None? ==> SimplifyKey(names[i]) !in CacheOf(e, ix)
  {
    if names != [] {
      var init := names[..|names| - 1];
      var last := names[|names| - 1];
      ResolveTermsMisses(e, ix, init);
      ResolveTermsFacts(e, ix, init);
      var e0 := ResolveTerms(e, ix, init).1;
      TermIdResult(e0, ix, last);
      var ls := Lookups(e, ix, names);
      forall i | 0 <= i < |names| && ls[i].None? ensures SimplifyKey(names[i]) !in CacheOf(e, ix) {
        if i < |init| {
          assert names[i] == init[i] && ls[i] == Lookups(e, ix, init)[i];
        }
      }
    }
  }

  /** The ids are exactly the truthy per-name results, in name order. A name that got
      an id got the one its key holds in the cache at the end; a name that got none
      was not cached at the start. */
  lemma ResolveTermsLookups(e: Engine, ix: Taxonomy, names: seq<string>)
    ensures ResolveTerms(e, ix, names).0 == TruthyIds(Lookups(e, ix, names))
    ensures forall i :: 0 <= i < |names| && Lookups(e, ix, names)[i].Some? ==>
      SimplifyKey(names[i]) in CacheOf(ResolveTerms(e, ix, names).1, ix) &&
      Lookups(e, ix, names)[i].value == CacheOf(ResolveTerms(e, ix, names).1, ix)[SimplifyKey(names[i])]
    ensures forall i :: 0 <= i < |names| && Lookups(e, ix, names)[i].None? ==> SimplifyKey(names[i]) !in CacheOf(e, ix)
  {
    ResolveTermsTruthy(e, ix, names);
    ResolveTermsHits(e, ix, names);
    ResolveTermsMisses(e, ix, names);
  }

  /** When every name is already cached: no request, nothing changes, and the ids
      are the truthy cached ids of the names, in order. */
  lemma {:induction false} ResolveTermsCached(e: Engine, ix: Taxonomy, names: seq<string>)
    requires forall i :: 0 <= i < |names| ==> SimplifyKey(names[i]) in CacheOf(e, ix)
    ensures ResolveTerms(e, ix, names) == (CachedIds(CacheOf(e, ix), names), e)
  {
    if names != [] {
      var init := names[..|names| - 1];
      assert forall i :: 0 <= i < |init| ==> init[i] == names[i];
      ResolveTermsCached(e, ix, init);
      TermIdHit(e, ix, names[|names| - 1]);
      var m := CacheOf(e, ix);
      var v := m[SimplifyKey(names[|names| - 1])];
      assert ResolveTerms(e, ix, init) == (CachedIds(m, init), e);
      assert TermId(e, ix, names[|names| - 1]) == (Some(v), e);
      assert CachedIds(m, names) == CachedIds(m, init) + (if v != 0 then [v] else []);
      if v != 0 {
        assert ResolveTerms(e, ix, names) == (CachedIds(m, init) + [v], e);
      } else {
        assert CachedIds(m, init) + [] == CachedIds(m, init);
        assert ResolveTerms(e, ix, names) == (CachedIds(m, init), e);
      }
    }
  }

  /** The truthy cached ids of already-cached names, in order. */
  function CachedIds(m: map<string, int>, names: seq<string>): seq<int>
    requires forall i :: 0 <= i < |names| ==> SimplifyKey(names[i]) in m
  {
    if names == [] then []
    else
      var v := m[SimplifyKey(names[|names| - 1])];
      CachedIds(m, names[..|names| - 1]) + (if v != 0 then [v] else [])
  }

  // =====================================================================
  // Identity resolver
  // =====================================================================

  /** Lines 129-134: the title key's id, else an explicit id that is one of the
      index's ids; a falsy id (0) counts as none. */
  function ResolveTarget(gems: map<string, int>, key: string, explicit: Option<int>): (r: Option<int>)
    ensures r.Some? ==> r.value != 0
  {
    var byTitle := if key in gems then gems[key] else 0;
    var t := if byTitle == 0 && explicit.Some? && explicit.value in gems.Values then explicit.value else byTitle;
    if t != 0 then Some(t) else None
  }

  /** The title match wins; an explicit id is used only without one, and only if the index knows it. */
  lemma ResolveTargetRule(gems: map<string, int>, key: string, explicit: Option<int>)
    ensures key in gems && gems[key] != 0 ==> ResolveTarget(gems, key, explicit) == Some(gems[key])
    ensures !(key in gems && gems[key] != 0) ==>
      ResolveTarget(gems, key, explicit) ==
        (if explicit.Some? && explicit.value != 0 && explicit.value in gems.Values then explicit else None)
  {
  }

  // =====================================================================
  // Payload and the per-gem step
  // =====================================================================

  /** Lines 152-179: the body with the card grid appended, and the four meta fields. */
  function BuildPayload(g: Gem, cats: seq<int>, tags: seq<int>): Payload {
    var content := if g.cardGrid.Some? then g.content + "\n" + Join(LayoutEngine.GridParts(g.cardGrid.value), "\n") else g.content;
    Payload(g.title, content, g.status, cats, tags,
      Meta(GetOr(MapGet(g.meta, "gem_category"), ""), GetOr(MapGet(g.meta, "gem_status"), ""),
           GetOr(MapGet(g.meta, "gem_action_item"), ""), GetOr(MapGet(g.meta, "gem_related_project"), "")))
  }

  function MapGet(m: map<string, string>, k: string): Option<string> {
    if k in m then Some(m[k]) else None
  }

  datatype Action = Created | Updated

  datatype Outcome =
    | Skipped
    | Written(action: Action, id: int)
    | WriteFailed(action: Action, status: int)
    | Aborted      // the write raised: the uncaught exception ends the run

  /** What the step computes before it decides (lines 129-182). */
  datatype Prepared = Prepared(key: string, target: Option<int>, payload: Payload, hash: string, engine: Engine)

  function Prepare(e: Engine, g: Gem, hash: Payload -> string): (p: Prepared)
    ensures p.engine.state == e.state && p.engine.gems == e.gems && p.engine.stateFile == e.stateFile
  {
    var key := SimplifyKey(g.title);
    var target := ResolveTarget(e.gems, key, g.id);
    var (cats, e1) := ResolveTerms(e, CategoryIndex, g.categories);
    var (tags, e2) := ResolveTerms(e1, TagIndex, g.tags);
    ResolveTermsFacts(e, CategoryIndex, g.categories);
    ResolveTermsFacts(e1, TagIndex, g.tags);
    var payload := BuildPayload(g, cats, tags);
    Prepared(key, target, payload, hash(payload), e2)
  }

  predicate SkipHit(p: Prepared) {
    p.target.Some? && IdKey(p.target.value) in p.engine.state && p.engine.state[IdKey(p.target.value)] == p.hash
  }

  /** One iteration of the main loop (lines 127-209). */
  function Step(e: Engine, g: Gem, hash: Payload -> string): (Outcome, Engine)
  {
    var p := Prepare(e, g, hash);
    if SkipHit(p) then (Skipped, p.engine)
    else
      var action := if p.target.Some? then Updated else Created;
      var req := if p.target.Some? then UpdateGem(p.target.value, p.payload) else CreateGem(p.payload);
      var (reply, e3) := Call(p.engine, req);
      match reply
      case Raised => (Aborted, e3)
      case Answer(status, id) =>
        if status == 200 || status == 201 then
          var st := e3.state[IdKey(id) := p.hash];
          (Written(action, id), e3.(state := st, gems := e3.gems[p.key := id], stateFile := Stored(st)))
        else (WriteFailed(action, status), e3)
  }

  /** Skip exactly when the target is set and its stored fingerprint is the payload's;
      a skip writes nothing and changes neither the state nor the gem index. */
  lemma StepSkipRule(e: Engine, g: Gem, hash: Payload -> string)
    ensures var p := Prepare(e, g, hash);
      var (o, e1) := Step(e, g, hash);
      && (o == Skipped <==> (p.target.Some? && IdKey(p.target.value) in e.state && e.state[IdKey(p.target.value)] == p.hash))
      && (o == Skipped ==> e1 == p.engine && e1.state == e.state && e1.gems == e.gems && e1.stateFile == e.stateFile)
  {
  }

  /** Without a skip exactly one write follows the term requests: an update of the
      target when there is one, otherwise a create. */
  lemma StepWriteRule(e: Engine, g: Gem, hash: Payload -> string)
    ensures var p := Prepare(e, g, hash);
      var (o, e1) := Step(e, g, hash);
      o != Skipped ==>
        && e1.sent == p.engine.sent + [if p.target.Some? then UpdateGem(p.target.value, p.payload) else CreateGem(p.payload)]
        && (o.Written? || o.WriteFailed? ==> o.action == (if p.target.Some? then Updated else Created))
  {
  }

  /** Without a skip, the write's reply decides: a raised request aborts, a 200/201
      reply is a write under the reply's id, and any other status is a failure.
      A 200/201 reply records the fingerprint under the returned id and the id under the
      title key, touches no other entry, and saves the state; any other reply changes neither. */
  lemma StepStateRule(e: Engine, g: Gem, hash: Payload -> string)
    ensures var p := Prepare(e, g, hash);
      var r := p.engine.replies;
      var (o, e1) := Step(e, g, hash);
      && (!SkipHit(p) ==>
            && (o == Aborted <==> r == [] || r[0].Raised?)
            && (o.Written? <==> r != [] && r[0].Answer? && (r[0].status == 200 || r[0].status == 201))
            && (o.Written? ==> o.id == r[0].id)
            && (o.WriteFailed? ==> r != [] && r[0].Answer? && o.status == r[0].status))
      && (o.Written? ==>
            && e1.state == e.state[IdKey(o.id) := p.hash]
            && e1.gems == e.gems[p.key := o.id]
            && e1.stateFile == Stored(e1.state))
      && (!o.Written? ==> e1.state == e.state && e1.gems == e.gems && e1.stateFile == e.stateFile)
  {
  }

  /** Processing a gem again right after a successful write with a truthy id is a
      skip without any request, provided its terms were all cached beforehand. */
  lemma StepIdempotent(e: Engine, g: Gem, hash: Payload -> string)
    requires forall i :: 0 <= i < |g.categories| ==> SimplifyKey(g.categories[i]) in e.categories
    requires forall i :: 0 <= i < |g.tags| ==> SimplifyKey(g.tags[i]) in e.tags
    requires Step(e, g, hash).0.Written? && Step(e, g, hash).0.id != 0
    ensures var e1 := Step(e, g, hash).1; Step(e1, g, hash) == (Skipped, e1)
  {
    var (o, e1) := Step(e, g, hash);
    PrepareCached(e, g, hash);
    StepStateRule(e, g, hash);
    WriteKeepsTerms(e, g, hash);
    PrepareCached(e1, g, hash);
    assert SkipHit(Prepare(e1, g, hash));
  }

  /** When every term is already cached, preparing issues no request and changes
      nothing, and the payload carries the truthy cached ids. */
  lemma PrepareCached(e: Engine, g: Gem, hash: Payload -> string)
    requires forall i :: 0 <= i < |g.categories| ==> SimplifyKey(g.categories[i]) in e.categories
    requires forall i :: 0 <= i < |g.tags| ==> SimplifyKey(g.tags[i]) in e.tags
    ensures var payload := BuildPayload(g, CachedIds(e.categories, g.categories), CachedIds(e.tags, g.tags));
      Prepare(e, g, hash) == Prepared(SimplifyKey(g.title), ResolveTarget(e.gems, SimplifyKey(g.title), g.id),
                                      payload, hash(payload), e)
  {
    ResolveTermsCached(e, CategoryIndex, g.categories);
    ResolveTermsCached(e, TagIndex, g.tags);
  }

  /** A write leaves the term caches as preparing left them. */
  lemma WriteKeepsTerms(e: Engine, g: Gem, hash: Payload -> string)
    requires Step(e, g, hash).0.Written?
    ensures Step(e, g, hash).1.categories == Prepare(e, g, hash).engine.categories
    ensures Step(e, g, hash).1.tags == Prepare(e, g, hash).engine.tags
  {
  }

  // =====================================================================
  // The run
  // =====================================================================

  /** The main loop over the declared gems; the flag says the run was aborted. */
  function Run(e: Engine, gems: seq<Gem>, hash: Payload -> string): (Engine, bool)
  {
    if gems == [] then (e, false)
    else
      var (e1, aborted) := Run(e, gems[..|gems| - 1], hash);
      if aborted then (e1, true)
      else
        var (o, e2) := Step(e1, gems[|gems| - 1], hash);
        (e2, o == Aborted)
  }

  /** The state file is rewritten after every successful write, so at every record
      boundary (and where an abort leaves the run) it holds the state in memory. */
  lemma {:induction false} RunKeepsPersisted(e: Engine, gems: seq<Gem>, hash: Payload -> string)
    requires Persisted(e)
    ensures Persisted(Run(e, gems, hash).0)
  {
    if gems != [] {
      RunKeepsPersisted(e, gems[..|gems| - 1], hash);
      var (e1, aborted) := Run(e, gems[..|gems| - 1], hash);
      if !aborted { StepStateRule(e1, gems[|gems| - 1], hash); }
    }
  }

  /** The whole program: load the state, cache the three indexes, then the loop. */
  function Publish(f: StateFile, catPages: seq<PageReply>, tagPages: seq<PageReply>, gemPages: seq<PageReply>,
                   gems: seq<Gem>, replies: seq<Reply>, hash: Payload -> string): Option<(Engine, bool)>
  {
    match LoadState(f)
    case None => None
    case Some(st) =>
      var e0 := Engine(CachePages(map[], catPages).0, CachePages(map[], tagPages).0, CachePages(map[], gemPages).0,
                       st, f, replies, []);
      Some(Run(e0, gems, hash))
  }

  /** A run starting from a readable state file leaves the file agreeing with the state. */
  lemma PublishPersists(f: StateFile, catPages: seq<PageReply>, tagPages: seq<PageReply>, gemPages: seq<PageReply>,
                        gems: seq<Gem>, replies: seq<Reply>, hash: Payload -> string)
    requires !f.Unreadable?
    ensures Publish(f, catPages, tagPages, gemPages, gems, replies, hash).Some?
    ensures Persisted(Publish(f, catPages, tagPages, gemPages, gems, replies, hash).value.0)
  {
    var st := LoadState(f).value;
    var e0 := Engine(CachePages(map[], catPages).0, CachePages(map[], tagPages).0, CachePages(map[], gemPages).0,
                     st, f, replies, []);
    RunKeepsPersisted(e0, gems, hash);
  }

  // =====================================================================
  // The engine's module state, updated in place
  // =====================================================================

  class Publisher {
    var categoryMap: map<string, int>
    var tagMap: map<string, int>
    var gemMap: map<string, int>
    var state: map<string, string>
    var stateFile: StateFile
    var replies: seq<Reply>
    var sent: seq<Request>

    function Snapshot(): Engine
      reads this
    {
      Engine(categoryMap, tagMap, gemMap, state, stateFile, replies, sent)
    }

    /** The empty module caches and the loaded state. */
    constructor (loaded: map<string, string>, file: StateFile, answers: seq<Reply>)
      ensures Snapshot() == Engine(map[], map[], map[], loaded, file, answers, [])
    {
      categoryMap, tagMap, gemMap := map[], map[], map[];
      state, stateFile := loaded, file;
      replies, sent := answers, [];
    }

    method PostRequest(req: Request) returns (reply: Reply)
      modifies this
      ensures (reply, Snapshot()) == Call(old(Snapshot()), req)
    {
      sent := sent + [req];
      if replies == [] {
        reply := Raised;
      } else {
        reply := replies[0];
        replies := replies[1..];
      }
    }

    method SetCache(ix: Index, m: map<string, int>)
      modifies this
      ensures Snapshot() == WithCache(old(Snapshot()), ix, m)
    {
      match ix
      case CategoryIndex => categoryMap := m;
      case TagIndex => tagMap := m;
      case GemIndex => gemMap := m;
    }

    /** `build_cache`: fetch pages until one is an error or empty, inserting each named item. */
    method BuildCache(ix: Index, pages: seq<PageReply>)
      modifies this
      ensures Snapshot() == WithCache(old(Snapshot()), ix, CachePages(CacheOf(old(Snapshot()), ix), pages).0)
    {
      var m, going := CachePagesLoop(CacheOf(Snapshot(), ix), pages);
      SetCache(ix, m);
    }

    /** `get_term_id` over the category or tag cache. */
    method GetTermId(ix: Taxonomy, name: string) returns (r: Option<int>)
      modifies this
      ensures (r, Snapshot()) == TermId(old(Snapshot()), ix, name)
    {
      var key := SimplifyKey(name);
      var m := if ix == CategoryIndex then categoryMap else tagMap;
      if key in m {
        return Some(m[key]);
      }
      var reply := PostRequest(CreateTerm(ix, name));
      if reply.Answer? && reply.status == 201 {
        SetCache(ix, m[key := reply.id]);
        return Some(reply.id);
      }
      return None;
    }

    /** The loop of lines 139-141 (or 145-147): keep each truthy resolved id. */
    method ResolveTermIds(ix: Taxonomy, names: seq<string>) returns (ids: seq<int>)
      modifies this
      ensures (ids, Snapshot()) == ResolveTerms(old(Snapshot()), ix, names)
    {
      ids := [];
      var i := 0;
      while i < |names|
        invariant 0 <= i <= |names|
        invariant (ids, Snapshot()) == ResolveTerms(old(Snapshot()), ix, names[..i])
      {
        assert names[..i + 1][..i] == names[..i];
        var cid := GetTermId(ix, names[i]);
        if cid.Some? && cid.value != 0 {
          ids := ids + [cid.value];
        }
        i := i + 1;
      }
      assert names[..|names|] == names;
    }

    /** One gem: resolve, prepare, fingerprint, then skip, update or create. */
    method PublishGem(g: Gem, hash: Payload -> string) returns (o: Outcome)
      modifies this
      ensures (o, Snapshot()) == Step(old(Snapshot()), g, hash)
    {
      var myKey := SimplifyKey(g.title);
      var targetId := ResolveTarget(gemMap, myKey, g.id);
      var catIds := ResolveTermIds(CategoryIndex, g.categories);
      var tagIds := ResolveTermIds(TagIndex, g.tags);
      var payload := BuildPayload(g, catIds, tagIds);
      var currentHash := hash(payload);
      if targetId.Some? && IdKey(targetId.value) in state && state[IdKey(targetId.value)] == currentHash {
        return Skipped;
      }
      var action := if targetId.Some? then Updated else Created;
      var reply;
      if targetId.Some? {
        reply := PostRequest(UpdateGem(targetId.value, payload));
      } else {
        reply := PostRequest(CreateGem(payload));
      }
      match reply
      case Raised =>
        o := Aborted;
      case Answer(status, realId) =>
        if status == 200 || status == 201 {
          state := state[IdKey(realId) := currentHash];
          gemMap := gemMap[myKey := realId];
          stateFile := Stored(state);
          o := Written(action, realId);
        } else {
          o := WriteFailed(action, status);
        }
    }

    /** The main loop; it stops where a write raises. */
    method PublishAll(gems: seq<Gem>, hash: Payload -> string) returns (aborted: bool)
      modifies this
      ensures (Snapshot(), aborted) == Run(old(Snapshot()), gems, hash)
    {
      aborted := false;
      var i := 0;
      while i < |gems| && !aborted
        invariant 0 <= i <= |gems|
        invariant (Snapshot(), aborted) == Run(old(Snapshot()), gems[..i], hash)
        invariant aborted ==> Run(old(Snapshot()), gems, hash) == (Snapshot(), true)
      {
        assert gems[..i + 1][..i] == gems[..i];
        var o := PublishGem(gems[i], hash);
        aborted := o == Aborted;
        if aborted { RunStopped(old(Snapshot()), gems, hash, i + 1); }
        i := i + 1;
      }
      assert gems[..|gems|] == gems;
    }
  }

  /** The page loop of `build_cache` (lines 48-64): the flag is false once the listing has ended. */
  method CachePagesLoop(m0: map<string, int>, pages: seq<PageReply>) returns (m: map<string, int>, going: bool)
    ensures (m, going) == CachePages(m0, pages)
  {
    m, going := m0, true;
    var page := 0;
    while going && page < |pages|
      invariant 0 <= page <= |pages|
      invariant (m, going) == CachePages(m0, pages[..page])
      invariant !going ==> CachePages(m0, pages) == (m, false)
    {
      assert pages[..page + 1][..page] == pages[..page] && pages[..page + 1][page] == pages[page];
      match pages[page] {
        case PageRaised =>
          going := false;
        case Page(status, items) =>
          if status != 200 || items == [] {
            going := false;
          } else {
            m, going := CacheItemsLoop(m, items);
          }
      }
      if !going { CachePagesStopped(m0, pages, page + 1); }
      page := page + 1;
    }
    assert pages[..|pages|] == pages;
  }

  /** The item loop of one page (lines 57-61): an item without `id` ends the listing. */
  method CacheItemsLoop(mStart: map<string, int>, items: seq<Item>) returns (m: map<string, int>, going: bool)
    ensures (m, going) == CacheItems(mStart, items)
  {
    m, going := mStart, true;
    var j := 0;
    while j < |items| && going
      invariant 0 <= j <= |items|
      invariant (m, going) == CacheItems(mStart, items[..j])
      invariant !going ==> CacheItems(mStart, items) == (m, false)
    {
      assert items[..j + 1][..j] == items[..j] && items[..j + 1][j] == items[j];
      var it := items[j];
      var raw := RawName(it);
      if Truthy(raw) {
        if it.id.None? {
          going := false;
        } else {
          m := m[SimplifyKey(raw.value) := it.id.value];
        }
      }
      if !going { CacheItemsStopped(mStart, items, j + 1); }
      j := j + 1;
    }
    assert items[..|items|] == items;
  }

  lemma {:induction false} CacheItemsStopped(m: map<string, int>, items: seq<Item>, n: nat)
    requires n <= |items|
    requires !CacheItems(m, items[..n]).1
    ensures CacheItems(m, items) == CacheItems(m, items[..n])
    decreases |items| - n
  {
    if n < |items| {
      assert items[..n + 1][..n] == items[..n];
      CacheItemsStopped(m, items, n + 1);
    } else {
      assert items[..n] == items;
    }
  }

  lemma {:induction false} CachePagesStopped(m: map<string, int>, pages: seq<PageReply>, n: nat)
    requires n <= |pages|
    requires !CachePages(m, pages[..n]).1
    ensures CachePages(m, pages) == CachePages(m, pages[..n])
    decreases |pages| - n
  {
    if n < |pages| {
      assert pages[..n + 1][..n] == pages[..n];
      CachePagesStopped(m, pages, n + 1);
    } else {
      assert pages[..n] == pages;
    }
  }

  lemma {:induction false} RunStopped(e: Engine, gems: seq<Gem>, hash: Payload -> string, n: nat)
    requires n <= |gems|
    requires Run(e, gems[..n], hash).1
    ensures Run(e, gems, hash) == Run(e, gems[..n], hash)
    decreases |gems| - n
  {
    if n < |gems| {
      assert gems[..n + 1][..n] == gems[..n];
      RunStopped(e, gems, hash, n + 1);
    } else {
      assert gems[..n] == gems;
    }
  }

  /** `main`: load the state (an unreadable file ends the program), cache the
      categories, tags and gems, then publish every declared gem. */
  method RunPublisher(f: StateFile, catPages: seq<PageReply>, tagPages: seq<PageReply>, gemPages: seq<PageReply>,
                      gems: seq<Gem>, replies: seq<Reply>, hash: Payload -> string)
    returns (result: Option<(Engine, bool)>)
    ensures result == Publish(f, catPages, tagPages, gemPages, gems, replies, hash)
  {
    var loaded := LoadState(f);
    if loaded.None? {
      return None;
    }
    var p := new Publisher(loaded.value, f, replies);
    p.BuildCache(CategoryIndex, catPages);
    p.BuildCache(TagIndex, tagPages);
    p.BuildCache(GemIndex, gemPages);
    var aborted := p.PublishAll(gems, hash);
    result := Some((p.Snapshot(), aborted));
  }
}
