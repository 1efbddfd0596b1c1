/** The résumé ingestion script: rows of the résumé spreadsheet become slots of
    variants. Rows that carry a slot id are grouped by it; the others ("orphans")
    join the first slot whose first variant is similar to them or start a slot of
    their own. Each slot then keeps its first truthy header and the first variant
    of each type. The same run also collects the per-variant role summaries and
    the deduplicated education entries.

    A spreadsheet cell that pandas reads as NaN is `None`. The similarity test
    (`SequenceMatcher.ratio() > 0.45`) is a parameter. */
module IngestResume {
  import opened Common

  /** `CMS-DS-PDM-01`, the variant type assumed when a row names none. */
  const Master := "CMS-DS-PDM-01"
  const DefaultTitle := "Product Leader"

  /** One spreadsheet row. */
  datatype Row = Row(recordType: Option<string>, slotId: Option<string>, variant: Option<string>,
                     content: Option<string>, org: Option<string>, role: Option<string>,
                     dates: Option<string>, location: Option<string>, skills: Option<string>,
                     roleTitle: Option<string>, roleSummary: Option<string>,
                     appName: Option<string>, appLocation: Option<string>, appEmail: Option<string>,
                     appPhone: Option<string>, appLinkedin: Option<string>, appPortfolio: Option<string>)

  /** A row kept for clustering (`bullet_obj`). */
  datatype Bullet = Bullet(vtype: string, content: string, manualId: Option<string>, header: Option<string>)

  /** A cluster under construction: its id and its variants in arrival order. */
  datatype Cluster = Cluster(id: string, variants: seq<Bullet>)

  datatype Variant = Variant(vtype: string, content: string)

  /** An output slot: its id, its header and its variants of distinct types. */
  datatype Slot = Slot(id: string, header: Option<string>, variants: seq<Variant>)

  // ---------------------------------------------------------------------
  // Rows to bullets

  /** A row without content is dropped; a missing variant type is the master one. */
  function ToBullet(row: Row): (r: Option<Bullet>)
    ensures r.None? <==> row.content.None?
    ensures r.Some? ==> r.value.content == row.content.value
    ensures r.Some? ==> r.value.vtype == (if row.variant.Some? then row.variant.value else Master)
    ensures r.Some? ==> r.value.manualId == row.slotId && r.value.header == row.skills
  {
    match row.content
    case None => None
    case Some(c) => Some(Bullet(GetOr(row.variant, Master), c, row.slotId, row.skills))
  }

  function Bullets(rows: seq<Row>): (r: seq<Bullet>)
    ensures |r| <= |rows|
  {
    if rows == [] then []
    else
      var b := ToBullet(rows[|rows| - 1]);
      Bullets(rows[..|rows| - 1]) + (if b.Some? then [b.value] else [])
  }

  /** `if slot_id:` */
  predicate IsManual(b: Bullet) {
    Truthy(b.manualId)
  }

  predicate HasId(b: Bullet, id: string) {
    b.manualId == Some(id) && id != ""
  }

  // ---------------------------------------------------------------------
  // First pass: manual slots and orphans

  /** `manual_slots` (a dict: its keys in insertion order and its values) and `orphans`. */
  datatype Groups = Groups(ids: seq<string>, manual: map<string, seq<Bullet>>, orphans: seq<Bullet>)

  /** The first loop of `process_slots`, over the kept rows. */
  function Grouped(bs: seq<Bullet>): Groups {
    if bs == [] then Groups([], map[], [])
    else
      var g := Grouped(bs[..|bs| - 1]);
      var b := bs[|bs| - 1];
      if IsManual(b) then
        var id := b.manualId.value;
        if id in g.manual then g.(manual := g.manual[id := g.manual[id] + [b]])
        else Groups(g.ids + [id], g.manual[id := [b]], g.orphans)
      else g.(orphans := g.orphans + [b])
  }

  /** Reference definitions: the bullets carrying a slot id, and those carrying none. */
  function WithId(bs: seq<Bullet>, id: string): seq<Bullet> {
    if bs == [] then []
    else WithId(bs[..|bs| - 1], id) + (if HasId(bs[|bs| - 1], id) then [bs[|bs| - 1]] else [])
  }

  function OrphansOf(bs: seq<Bullet>): seq<Bullet> {
    if bs == [] then []
    else OrphansOf(bs[..|bs| - 1]) + (if IsManual(bs[|bs| - 1]) then [] else [bs[|bs| - 1]])
  }

  /** Where the slot id first appears (|bs| when it does not). */
  function FirstIndex(bs: seq<Bullet>, id: string): (r: nat)
    ensures r <= |bs|
    ensures r < |bs| ==> HasId(bs[r], id)
    ensures forall p :: 0 <= p < r ==> !HasId(bs[p], id)
  {
    if bs == [] then 0
    else if HasId(bs[0], id) then 0
    else 1 + FirstIndex(bs[1..], id)
  }

  lemma FirstIndexPrefix(bs: seq<Bullet>, id: string)
    requires bs != []
    ensures var pre := bs[..|bs| - 1];
      && (FirstIndex(pre, id) < |pre| ==> FirstIndex(bs, id) == FirstIndex(pre, id))
      && (FirstIndex(pre, id) == |pre| ==> FirstIndex(bs, id) >= |pre|)
  {
    var pre := bs[..|bs| - 1];
    assert forall p :: 0 <= p < |pre| ==> pre[p] == bs[p];
  }

  lemma WithIdSome(bs: seq<Bullet>, id: string)
    ensures WithId(bs, id) != [] <==> exists k :: 0 <= k < |bs| && HasId(bs[k], id)
  {
    if bs != [] {
      var pre := bs[..|bs| - 1];
      WithIdSome(pre, id);
      if exists k :: 0 <= k < |pre| && HasId(pre[k], id) {
        var k :| 0 <= k < |pre| && HasId(pre[k], id);
        assert bs[k] == pre[k];
      }
      if exists k :: 0 <= k < |bs| && HasId(bs[k], id) {
        var k :| 0 <= k < |bs| && HasId(bs[k], id);
        if k < |pre| {
          assert pre[k] == bs[k];
        }
      }
    }
  }

  predicate Distinct(s: seq<string>) {
    forall j, k :: 0 <= j < k < |s| ==> s[j] != s[k]
  }

  /** The dict's keys are the listed ids. */
  ghost predicate KeysListed(g: Groups) {
    forall id :: id in g.manual <==> id in g.ids
  }

  /** The dict's keys are the slot ids that occur. */
  ghost predicate KeysOccur(g: Groups, bs: seq<Bullet>) {
    forall id :: id in g.manual <==> FirstIndex(bs, id) < |bs|
  }

  /** Each slot holds exactly the rows of its id, in row order. */
  predicate BodiesMatch(g: Groups, bs: seq<Bullet>) {
    forall id :: id in g.manual ==> g.manual[id] == WithId(bs, id) && g.manual[id] != []
  }

  /** The ids are listed in the order of their first appearance. */
  predicate FirstAppearanceOrder(ids: seq<string>, bs: seq<Bullet>) {
    forall j, k :: 0 <= j < k < |ids| ==> FirstIndex(bs, ids[j]) < FirstIndex(bs, ids[k])
  }

  lemma {:induction false} GroupedKeys(bs: seq<Bullet>)
    ensures Distinct(Grouped(bs).ids) && KeysListed(Grouped(bs)) && KeysOccur(Grouped(bs), bs)
    decreases |bs|
  {
    if bs != [] {
      var pre := bs[..|bs| - 1];
      GroupedKeys(pre);
      var g0 := Grouped(pre);
      var g := Grouped(bs);
      forall id ensures FirstIndex(bs, id) < |bs| <==> FirstIndex(pre, id) < |pre| || HasId(bs[|bs| - 1], id) {
        FirstIndexPrefix(bs, id);
      }
      forall id ensures id in g.manual <==> id in g.ids {
        assert id in g0.ids ==> id in g.ids;
      }
    }
  }

  lemma {:induction false} GroupedBodies(bs: seq<Bullet>)
    ensures BodiesMatch(Grouped(bs), bs)
    decreases |bs|
  {
    if bs != [] {
      var pre := bs[..|bs| - 1];
      var b := bs[|bs| - 1];
      GroupedBodies(pre);
      GroupedKeys(pre);
      var g0 := Grouped(pre);
      var g := Grouped(bs);
      forall id | id in g.manual ensures g.manual[id] == WithId(bs, id) && g.manual[id] != [] {
        if IsManual(b) && b.manualId.value == id {
          assert HasId(b, id);
          if id !in g0.manual {
            WithIdSome(pre, id);
            assert WithId(pre, id) == [];
          }
          assert WithId(bs, id) == WithId(pre, id) + [b];
        } else {
          assert !HasId(b, id);
          assert g.manual[id] == g0.manual[id];
          assert WithId(bs, id) == WithId(pre, id) + [];
        }
      }
    }
  }

  lemma {:induction false} GroupedOrder(bs: seq<Bullet>)
    ensures FirstAppearanceOrder(Grouped(bs).ids, bs)
    decreases |bs|
  {
    if bs != [] {
      var pre := bs[..|bs| - 1];
      var b := bs[|bs| - 1];
      GroupedOrder(pre);
      GroupedKeys(pre);
      var g0 := Grouped(pre);
      var g := Grouped(bs);
      forall j, k | 0 <= j < k < |g.ids| ensures FirstIndex(bs, g.ids[j]) < FirstIndex(bs, g.ids[k]) {
        FirstIndexPrefix(bs, g.ids[j]);
        FirstIndexPrefix(bs, g.ids[k]);
        if k < |g0.ids| {
          assert g.ids[j] == g0.ids[j] && g.ids[k] == g0.ids[k];
        } else {
          assert g.ids[k] == b.manualId.value && g.ids[j] == g0.ids[j];
          assert g0.ids[j] in g0.manual;
          assert HasId(b, b.manualId.value);
        }
      }
    }
  }

  lemma {:induction false} GroupedOrphans(bs: seq<Bullet>)
    ensures Grouped(bs).orphans == OrphansOf(bs)
    decreases |bs|
  {
    if bs != [] {
      GroupedOrphans(bs[..|bs| - 1]);
    }
  }

  /** The manual slots are exactly the distinct truthy slot ids, in the order of their
      first appearance, and each holds every row of its id in row order; the rows
      without a slot id are the orphans, in row order. */
  lemma GroupedFacts(bs: seq<Bullet>)
    ensures Distinct(Grouped(bs).ids) && KeysListed(Grouped(bs)) && KeysOccur(Grouped(bs), bs)
    ensures BodiesMatch(Grouped(bs), bs) && FirstAppearanceOrder(Grouped(bs).ids, bs)
    ensures Grouped(bs).orphans == OrphansOf(bs)
  {
    GroupedKeys(bs);
    GroupedBodies(bs);
    GroupedOrder(bs);
    GroupedOrphans(bs);
  }

  // ---------------------------------------------------------------------
  // Second pass: the manual slots, then each orphan placed

  /** The manual slots in the dict's order. */
  function ManualClusters(ids: seq<string>, manual: map<string, seq<Bullet>>): (r: seq<Cluster>)
    ensures |r| == |ids|
    ensures forall k :: 0 <= k < |ids| ==> r[k].id == ids[k]
    ensures forall k :: 0 <= k < |ids| && ids[k] in manual ==> r[k].variants == manual[ids[k]]
  {
    if ids == [] then []
    else
      ManualClusters(ids[..|ids| - 1], manual)
        + [Cluster(ids[|ids| - 1], if ids[|ids| - 1] in manual then manual[ids[|ids| - 1]] else [])]
  }

  /** The orphan is similar to the cluster's first variant (`cluster['variants'][0]`). */
  predicate Hits(c: Cluster, content: string, similar: (string, string) -> bool) {
    c.variants != [] && similar(content, c.variants[0].content)
  }

  /** The first cluster, manual or automatic, that the orphan is similar to. */
  function FirstSimilar(cs: seq<Cluster>, content: string, similar: (string, string) -> bool): (r: Option<nat>)
    ensures r.Some? ==> r.value < |cs| && Hits(cs[r.value], content, similar)
    ensures r.Some? ==> forall j :: 0 <= j < r.value ==> !Hits(cs[j], content, similar)
    ensures r.None? ==> forall j :: 0 <= j < |cs| ==> !Hits(cs[j], content, similar)
  {
    if cs == [] then None
    else if Hits(cs[0], content, similar) then Some(0)
    else match FirstSimilar(cs[1..], content, similar)
      case None => None
      case Some(k) => Some(k + 1)
  }

  /** `str(context_name).lower().split()[0]` with ',' and '.' removed; `None` when the
      name holds no word, where `split()[0]` raises. */
  function Slug(context: string): (r: Option<string>)
    ensures r.Some? ==> forall k :: 0 <= k < |r.value| ==> !IsSpace(r.value[k]) && r.value[k] != ',' && r.value[k] != '.'
    ensures r.None? <==> AllSpace(Lower(context))
  {
    var t := LStrip(Lower(context));
    assert t == [] <==> AllSpace(Lower(context)) by {
      var l := Lower(context);
      var n := SpaceRun(l);
      assert l[..n] == l ==> AllSpace(l);
      assert n < |l| ==> !IsSpace(l[n]);
    }
    if t == [] then None
    else
      var w := t[..WordRun(t)];
      var w1 := ReplaceAll(w, ",", "");
      DeleteCharFacts(w, ',');
      DeleteCharFacts(w1, '.');
      Some(ReplaceAll(w1, ".", ""))
  }

  /** Length of the leading run of non-space characters. */
  function WordRun(s: string): (n: nat)
    ensures n <= |s| && forall k :: 0 <= k < n ==> !IsSpace(s[k])
  {
    if s == [] || IsSpace(s[0]) then 0 else 1 + WordRun(s[1..])
  }

  /** `f"{slug}_auto_{len(final_clusters)+1:02d}"` */
  function AutoId(slug: string, count: nat): string {
    slug + "_auto_" + Pad2(count + 1)
  }

  /** One orphan: appended to the first similar cluster, or the start of a new one. */
  function Place(cs: seq<Cluster>, o: Bullet, slug: Option<string>, similar: (string, string) -> bool)
    : Option<seq<Cluster>>
  {
    match FirstSimilar(cs, o.content, similar)
    case Some(k) => Some(cs[k := cs[k].(variants := cs[k].variants + [o])])
    case None =>
      if slug.None? then None else Some(cs + [Cluster(AutoId(slug.value, |cs|), [o])])
  }

  /** The orphans in order. */
  function PlaceAll(cs: seq<Cluster>, os: seq<Bullet>, slug: Option<string>, similar: (string, string) -> bool)
    : Option<seq<Cluster>>
    decreases |os|
  {
    if os == [] then Some(cs)
    else match Place(cs, os[0], slug, similar)
      case None => None
      case Some(cs1) => PlaceAll(cs1, os[1..], slug, similar)
  }

  /** The number of variants over all clusters. */
  function Total(cs: seq<Cluster>): nat {
    if cs == [] then 0 else Total(cs[..|cs| - 1]) + |cs[|cs| - 1].variants|
  }

  lemma {:induction false} TotalAppend(cs: seq<Cluster>, c: Cluster)
    ensures Total(cs + [c]) == Total(cs) + |c.variants|
  {
    assert (cs + [c])[..|cs + [c]| - 1] == cs;
  }

  lemma {:induction false} TotalUpdate(cs: seq<Cluster>, k: nat, c: Cluster)
    requires k < |cs|
    ensures Total(cs[k := c]) == Total(cs) - |cs[k].variants| + |c.variants|
    decreases |cs|
  {
    var last := |cs| - 1;
    if k < last {
      TotalUpdate(cs[..last], k, c);
      assert cs[k := c][..last] == cs[..last][k := c];
    } else {
      assert cs[k := c][..last] == cs[..last];
    }
  }

  predicate AllNonEmpty(cs: seq<Cluster>) {
    forall k :: 0 <= k < |cs| ==> cs[k].variants != []
  }

  /** Placing an orphan adds exactly one variant: to the first similar cluster when
      there is one (every cluster keeps its id), otherwise as a new cluster, named
      after the slug and the new count, at the end. It fails only when a new cluster
      is needed and the name holds no word. */
  lemma PlaceFacts(cs: seq<Cluster>, o: Bullet, slug: Option<string>, similar: (string, string) -> bool)
    ensures var r := Place(cs, o, slug, similar);
      && (r.None? <==> FirstSimilar(cs, o.content, similar).None? && slug.None?)
      && (r.Some? ==> Total(r.value) == Total(cs) + 1)
      && (r.Some? ==> |r.value| == |cs| + (if FirstSimilar(cs, o.content, similar).None? then 1 else 0))
      && (r.Some? && FirstSimilar(cs, o.content, similar).Some? ==>
            var k := FirstSimilar(cs, o.content, similar).value;
            r.value[k].variants == cs[k].variants + [o])
      && (r.Some? && FirstSimilar(cs, o.content, similar).None? ==>
            r.value[|cs|] == Cluster(AutoId(slug.value, |cs|), [o]))
      && (r.Some? && AllNonEmpty(cs) ==> AllNonEmpty(r.value))
  {
    match FirstSimilar(cs, o.content, similar)
    case Some(k) =>
      TotalUpdate(cs, k, cs[k].(variants := cs[k].variants + [o]));
    case None =>
      if slug.Some? {
        TotalAppend(cs, Cluster(AutoId(slug.value, |cs|), [o]));
      }
  }

  /** Every orphan lands in exactly one cluster; the clusters already there keep their
      ids and places, and each cluster made on the way is named after its position. */
  lemma {:induction false} PlaceAllCount(cs: seq<Cluster>, os: seq<Bullet>, slug: Option<string>,
                                         similar: (string, string) -> bool)
    ensures PlaceAll(cs, os, slug, similar).Some? ==>
      && Total(PlaceAll(cs, os, slug, similar).value) == Total(cs) + |os|
      && |cs| <= |PlaceAll(cs, os, slug, similar).value| <= |cs| + |os|
    decreases |os|
  {
    if os != [] {
      PlaceFacts(cs, os[0], slug, similar);
      match Place(cs, os[0], slug, similar)
      case None =>
      case Some(cs1) =>
        PlaceAllCount(cs1, os[1..], slug, similar);
    }
  }

  /** `r` keeps the ids of `cs` and names every later cluster `<slug>_auto_NN`. */
  predicate IdsKept(cs: seq<Cluster>, r: seq<Cluster>, slug: Option<string>) {
    && |cs| <= |r|
    && (forall k :: 0 <= k < |cs| ==> r[k].id == cs[k].id)
    && (|cs| < |r| ==> slug.Some?)
    && (forall k :: |cs| <= k < |r| ==> r[k].id == AutoId(slug.value, k))
  }

  lemma IdsKeptTrans(a: seq<Cluster>, b: seq<Cluster>, c: seq<Cluster>, slug: Option<string>)
    requires IdsKept(a, b, slug) && IdsKept(b, c, slug)
    ensures IdsKept(a, c, slug)
  {
    forall k | |a| <= k < |b| ensures c[k].id == AutoId(slug.value, k) {
      assert c[k].id == b[k].id;
    }
  }

  lemma PlaceIds(cs: seq<Cluster>, o: Bullet, slug: Option<string>, similar: (string, string) -> bool)
    requires Place(cs, o, slug, similar).Some?
    ensures IdsKept(cs, Place(cs, o, slug, similar).value, slug)
  {
    PlaceFacts(cs, o, slug, similar);
    var cs1 := Place(cs, o, slug, similar).value;
    if FirstSimilar(cs, o.content, similar).Some? {
      assert forall m :: 0 <= m < |cs| ==> cs1[m].id == cs[m].id;
    } else {
      assert forall m :: 0 <= m < |cs| ==> cs1[m] == cs[m];
    }
  }

  lemma {:induction false} PlaceAllIds(cs: seq<Cluster>, os: seq<Bullet>, slug: Option<string>,
                                       similar: (string, string) -> bool)
    ensures PlaceAll(cs, os, slug, similar).Some? ==> IdsKept(cs, PlaceAll(cs, os, slug, similar).value, slug)
    decreases |os|
  {
    if os == [] {
    } else if Place(cs, os[0], slug, similar).Some? {
      var cs1 := Place(cs, os[0], slug, similar).value;
      PlaceIds(cs, os[0], slug, similar);
      PlaceAllIds(cs1, os[1..], slug, similar);
      if PlaceAll(cs, os, slug, similar).Some? {
        IdsKeptTrans(cs, cs1, PlaceAll(cs, os, slug, similar).value, slug);
      }
    }
  }

  lemma {:induction false} PlaceAllNonEmpty(cs: seq<Cluster>, os: seq<Bullet>, slug: Option<string>,
                                            similar: (string, string) -> bool)
    requires AllNonEmpty(cs)
    ensures PlaceAll(cs, os, slug, similar).Some? ==> AllNonEmpty(PlaceAll(cs, os, slug, similar).value)
    decreases |os|
  {
    if os != [] {
      PlaceFacts(cs, os[0], slug, similar);
      match Place(cs, os[0], slug, similar)
      case None =>
      case Some(cs1) =>
        PlaceAllNonEmpty(cs1, os[1..], slug, similar);
    }
  }

  lemma PlaceAllFacts(cs: seq<Cluster>, os: seq<Bullet>, slug: Option<string>,
                      similar: (string, string) -> bool)
    ensures PlaceAll(cs, os, slug, similar).Some? ==>
      var r := PlaceAll(cs, os, slug, similar).value;
      && Total(r) == Total(cs) + |os|
      && |cs| <= |r| <= |cs| + |os|
      && (forall k :: 0 <= k < |cs| ==> r[k].id == cs[k].id)
      && (forall k :: |cs| <= k < |r| ==> slug.Some? && r[k].id == AutoId(slug.value, k))
      && (AllNonEmpty(cs) ==> AllNonEmpty(r))
  {
    PlaceAllCount(cs, os, slug, similar);
    PlaceAllIds(cs, os, slug, similar);
    if AllNonEmpty(cs) {
      PlaceAllNonEmpty(cs, os, slug, similar);
    }
  }

  /** With a slug, every orphan finds a place. */
  lemma {:induction false} PlaceAllDefined(cs: seq<Cluster>, os: seq<Bullet>, slug: Option<string>,
                                           similar: (string, string) -> bool)
    requires slug.Some?
    ensures PlaceAll(cs, os, slug, similar).Some?
    decreases |os|
  {
    if os != [] {
      PlaceFacts(cs, os[0], slug, similar);
      PlaceAllDefined(Place(cs, os[0], slug, similar).value, os[1..], slug, similar);
    }
  }

  // ---------------------------------------------------------------------
  // Third pass: header and distinct variant types per slot

  /** `v.get('header')` of the first variant with a truthy header. */
  function FirstHeader(bs: seq<Bullet>): (r: Option<string>)
    ensures r.Some? ==> Truthy(r) && exists j :: 0 <= j < |bs| && bs[j].header == r && forall i :: 0 <= i < j ==> !Truthy(bs[i].header)
    ensures r.None? <==> forall j :: 0 <= j < |bs| ==> !Truthy(bs[j].header)
  {
    if bs == [] then None
    else if Truthy(bs[0].header) then bs[0].header
    else
      var r := FirstHeader(bs[1..]);
      assert forall j :: 1 <= j < |bs| ==> bs[j] == bs[1..][j - 1];
      r
  }

  function TypesOf(vs: seq<Variant>): set<string> {
    set k | 0 <= k < |vs| :: vs[k].vtype
  }

  /** The `seen_types` loop: the first variant of each type, in order. */
  function DedupTypes(bs: seq<Bullet>): seq<Variant> {
    if bs == [] then []
    else
      var r := DedupTypes(bs[..|bs| - 1]);
      var b := bs[|bs| - 1];
      if b.vtype in TypesOf(r) then r else r + [Variant(b.vtype, b.content)]
  }

  function AsVariant(b: Bullet): Variant {
    Variant(b.vtype, b.content)
  }

  predicate TypesDistinct(vs: seq<Variant>) {
    forall j, k :: 0 <= j < k < |vs| ==> vs[j].vtype != vs[k].vtype
  }

  /** No earlier variant has the type of variant `j`. */
  predicate IsFirstOfType(bs: seq<Bullet>, j: nat)
    requires j < |bs|
  {
    forall p :: 0 <= p < j ==> bs[p].vtype != bs[j].vtype
  }

  /** Reference definition: the variants that are the first of their type, in order. */
  function Firsts(bs: seq<Bullet>): seq<Variant> {
    if bs == [] then []
    else Firsts(bs[..|bs| - 1]) + (if IsFirstOfType(bs, |bs| - 1) then [AsVariant(bs[|bs| - 1])] else [])
  }

  function InputTypes(bs: seq<Bullet>): set<string> {
    set k | 0 <= k < |bs| :: bs[k].vtype
  }

  /** Every type of the input is kept. */
  predicate TypesCovered(vs: seq<Variant>, bs: seq<Bullet>) {
    forall k :: 0 <= k < |bs| ==> bs[k].vtype in TypesOf(vs)
  }

  /** One step of the loop: a new type is appended, a seen one skipped. */
  lemma DedupStep(bs: seq<Bullet>)
    requires bs != []
    ensures var r0 := DedupTypes(bs[..|bs| - 1]);
      var b := bs[|bs| - 1];
      if b.vtype in TypesOf(r0) then DedupTypes(bs) == r0
      else DedupTypes(bs) == r0 + [AsVariant(b)] && TypesOf(DedupTypes(bs)) == TypesOf(r0) + {b.vtype}
  {
    var r0 := DedupTypes(bs[..|bs| - 1]);
    var b := bs[|bs| - 1];
    if b.vtype !in TypesOf(r0) {
      var r := r0 + [AsVariant(b)];
      forall t | t in TypesOf(r) ensures t in TypesOf(r0) + {b.vtype} {
        var k :| 0 <= k < |r| && r[k].vtype == t;
        if k < |r0| {
          assert r0[k] == r[k];
        }
      }
      forall t | t in TypesOf(r0) + {b.vtype} ensures t in TypesOf(r) {
        if t == b.vtype {
          assert r[|r0|].vtype == t;
        } else {
          var k :| 0 <= k < |r0| && r0[k].vtype == t;
          assert r[k].vtype == t;
        }
      }
    }
  }

  lemma {:induction false} DedupDistinct(bs: seq<Bullet>)
    ensures TypesDistinct(DedupTypes(bs))
    decreases |bs|
  {
    if bs != [] {
      DedupDistinct(bs[..|bs| - 1]);
      DedupStep(bs);
      var r0 := DedupTypes(bs[..|bs| - 1]);
      assert forall k :: 0 <= k < |r0| ==> r0[k].vtype in TypesOf(r0);
    }
  }

  /** The types kept are exactly the input's types. */
  lemma {:induction false} DedupTypesOf(bs: seq<Bullet>)
    ensures TypesOf(DedupTypes(bs)) == InputTypes(bs)
    decreases |bs|
  {
    if bs != [] {
      var pre := bs[..|bs| - 1];
      DedupTypesOf(pre);
      DedupStep(bs);
      assert InputTypes(bs) == InputTypes(pre) + {bs[|bs| - 1].vtype} by {
        forall t | t in InputTypes(bs) ensures t in InputTypes(pre) + {bs[|bs| - 1].vtype} {
          var k :| 0 <= k < |bs| && bs[k].vtype == t;
          if k < |pre| {
            assert pre[k] == bs[k];
          }
        }
        forall t | t in InputTypes(pre) ensures t in InputTypes(bs) {
          var k :| 0 <= k < |pre| && pre[k].vtype == t;
          assert bs[k] == pre[k];
        }
      }
    }
  }

  /** The loop keeps exactly the first variant of each type, in order. */
  lemma {:induction false} DedupIsFirsts(bs: seq<Bullet>)
    ensures DedupTypes(bs) == Firsts(bs)
    decreases |bs|
  {
    if bs != [] {
      var pre := bs[..|bs| - 1];
      var b := bs[|bs| - 1];
      DedupIsFirsts(pre);
      DedupTypesOf(pre);
      DedupStep(bs);
      assert forall p :: 0 <= p < |pre| ==> pre[p] == bs[p];
      assert b.vtype in InputTypes(pre) <==> !IsFirstOfType(bs, |bs| - 1);
    }
  }

  lemma DedupCovered(bs: seq<Bullet>)
    ensures TypesCovered(DedupTypes(bs), bs)
  {
    DedupTypesOf(bs);
  }

  /** The kept variants have pairwise distinct types, cover every type of the input,
      and are the first variant of each type, in order. */
  lemma DedupFacts(bs: seq<Bullet>)
    ensures TypesDistinct(DedupTypes(bs)) && TypesCovered(DedupTypes(bs), bs) && DedupTypes(bs) == Firsts(bs)
  {
    DedupDistinct(bs);
    DedupCovered(bs);
    DedupIsFirsts(bs);
  }

  /** `slot_obj` */
  function FormatSlot(c: Cluster): Slot {
    Slot(c.id, FirstHeader(c.variants), DedupTypes(c.variants))
  }

  function FormatAll(cs: seq<Cluster>): (r: seq<Slot>)
    ensures |r| == |cs| && forall k :: 0 <= k < |cs| ==> r[k] == FormatSlot(cs[k])
  {
    if cs == [] then [] else FormatAll(cs[..|cs| - 1]) + [FormatSlot(cs[|cs| - 1])]
  }

  /** `process_slots`; `None` where it raises (an orphan needs a new slot and the
      context name holds no word). */
  function ProcessedSlots(rows: seq<Row>, context: string, similar: (string, string) -> bool): Option<seq<Slot>> {
    var g := Grouped(Bullets(rows));
    match PlaceAll(ManualClusters(g.ids, g.manual), g.orphans, Slug(context), similar)
    case None => None
    case Some(cs) => Some(FormatAll(cs))
  }

  /** The manual slots come first, one per distinct slot id in the order of first
      appearance; then at most one slot per orphan, named `<slug>_auto_NN` after its
      position. Every slot has variants of distinct types, and at least one. */
  predicate SlotsShape(r: seq<Slot>, g: Groups, slug: Option<string>) {
    && |g.ids| <= |r| <= |g.ids| + |g.orphans|
    && (forall k :: 0 <= k < |g.ids| ==> r[k].id == g.ids[k])
    && (forall k :: |g.ids| <= k < |r| ==> slug.Some? && r[k].id == AutoId(slug.value, k))
    && (forall k :: 0 <= k < |r| ==> TypesDistinct(r[k].variants) && r[k].variants != [])
  }

  lemma FormatAllShape(cs: seq<Cluster>)
    requires AllNonEmpty(cs)
    ensures forall k :: 0 <= k < |cs| ==> TypesDistinct(FormatAll(cs)[k].variants) && FormatAll(cs)[k].variants != []
  {
    forall k | 0 <= k < |cs| ensures TypesDistinct(DedupTypes(cs[k].variants)) && DedupTypes(cs[k].variants) != [] {
      DedupFacts(cs[k].variants);
      var vs := cs[k].variants;
      assert vs[0].vtype in TypesOf(DedupTypes(vs));
    }
  }

  /** Every manual slot has a variant. */
  lemma ManualNonEmpty(bs: seq<Bullet>)
    ensures AllNonEmpty(ManualClusters(Grouped(bs).ids, Grouped(bs).manual))
  {
    GroupedFacts(bs);
  }

  /** The clusters before formatting: the manual ones first, then the automatic ones,
      each with a variant. */
  predicate ClustersShape(cs: seq<Cluster>, g: Groups, slug: Option<string>) {
    && |g.ids| <= |cs| <= |g.ids| + |g.orphans|
    && (forall k :: 0 <= k < |g.ids| ==> cs[k].id == g.ids[k])
    && (forall k :: |g.ids| <= k < |cs| ==> slug.Some? && cs[k].id == AutoId(slug.value, k))
    && AllNonEmpty(cs)
  }

  lemma PlacedShape(g: Groups, slug: Option<string>, similar: (string, string) -> bool)
    requires AllNonEmpty(ManualClusters(g.ids, g.manual))
    ensures PlaceAll(ManualClusters(g.ids, g.manual), g.orphans, slug, similar).Some? ==>
      ClustersShape(PlaceAll(ManualClusters(g.ids, g.manual), g.orphans, slug, similar).value, g, slug)
  {
    var m := ManualClusters(g.ids, g.manual);
    PlaceAllCount(m, g.orphans, slug, similar);
    PlaceAllIds(m, g.orphans, slug, similar);
    PlaceAllNonEmpty(m, g.orphans, slug, similar);
  }

  lemma FormatShape(cs: seq<Cluster>, g: Groups, slug: Option<string>)
    requires ClustersShape(cs, g, slug)
    ensures SlotsShape(FormatAll(cs), g, slug)
  {
    FormatAllShape(cs);
  }

  lemma ProcessedSlotsFacts(rows: seq<Row>, context: string, similar: (string, string) -> bool)
    ensures ProcessedSlots(rows, context, similar).Some? ==>
      SlotsShape(ProcessedSlots(rows, context, similar).value, Grouped(Bullets(rows)), Slug(context))
  {
    var g := Grouped(Bullets(rows));
    ManualNonEmpty(Bullets(rows));
    PlacedShape(g, Slug(context), similar);
    var p := PlaceAll(ManualClusters(g.ids, g.manual), g.orphans, Slug(context), similar);
    if p.Some? {
      FormatShape(p.value, g, Slug(context));
    }
  }

  // ---------------------------------------------------------------------
  // `process_slots` as the source writes it, loop by loop

  /** The first truthy header (`for v in cluster['variants']: ... break`). */
  method HeaderOf(vs: seq<Bullet>) returns (header: Option<string>)
    ensures header == FirstHeader(vs)
  {
    header := None;
    var i := 0;
    while i < |vs|
      invariant 0 <= i <= |vs|
      invariant FirstHeader(vs) == FirstHeader(vs[i..])
    {
      assert vs[i..][1..] == vs[i + 1..];
      if Truthy(vs[i].header) {
        header := vs[i].header;
        return;
      }
      i := i + 1;
    }
  }

  /** The `seen_types` loop. */
  method DistinctVariants(vs: seq<Bullet>) returns (out: seq<Variant>)
    ensures out == DedupTypes(vs)
  {
    out := [];
    var seen: set<string> := {};
    var i := 0;
    while i < |vs|
      invariant 0 <= i <= |vs|
      invariant out == DedupTypes(vs[..i]) && seen == TypesOf(out)
    {
      assert vs[..i + 1][..i] == vs[..i];
      DedupStep(vs[..i + 1]);
      if vs[i].vtype !in seen {
        out := out + [Variant(vs[i].vtype, vs[i].content)];
        seen := seen + {vs[i].vtype};
      }
      i := i + 1;
    }
    assert vs[..i] == vs;
  }

  /** The first loop of `process_slots`: rows into manual slots and orphans. */
  method GroupRows(rows: seq<Row>) returns (ids: seq<string>, manual: map<string, seq<Bullet>>, orphans: seq<Bullet>)
    ensures Groups(ids, manual, orphans) == Grouped(Bullets(rows))
  {
    ids, manual, orphans := [], map[], [];
    var i := 0;
    while i < |rows|
      invariant 0 <= i <= |rows|
      invariant Groups(ids, manual, orphans) == Grouped(Bullets(rows[..i]))
    {
      assert rows[..i + 1][..i] == rows[..i];
      var row := rows[i];
      if row.content.Some? {
        var bullet := Bullet(GetOr(row.variant, Master), row.content.value, row.slotId, row.skills);
        ghost var bs := Bullets(rows[..i]);
        assert Bullets(rows[..i + 1]) == bs + [bullet];
        assert (bs + [bullet])[..|bs|] == bs && (bs + [bullet])[|bs|] == bullet;
        assert Grouped(bs + [bullet]) == Grouped(Bullets(rows[..i + 1]));
        if Truthy(row.slotId) {
          var slotId := row.slotId.value;
          if slotId !in manual {
            ids := ids + [slotId];
            manual := manual[slotId := []];
            assert [] + [bullet] == [bullet];
          }
          manual := manual[slotId := manual[slotId] + [bullet]];
        } else {
          orphans := orphans + [bullet];
        }
      } else {
        assert Bullets(rows[..i + 1]) == Bullets(rows[..i]);
      }
      i := i + 1;
    }
    assert rows[..i] == rows;
  }

  /** The manual slots become clusters, in insertion order. */
  method ManualToClusters(ids: seq<string>, manual: map<string, seq<Bullet>>) returns (clusters: seq<Cluster>)
    ensures clusters == ManualClusters(ids, manual)
  {
    clusters := [];
    var k := 0;
    while k < |ids|
      invariant 0 <= k <= |ids|
      invariant clusters == ManualClusters(ids[..k], manual)
    {
      assert ids[..k + 1][..k] == ids[..k];
      clusters := clusters + [Cluster(ids[k], if ids[k] in manual then manual[ids[k]] else [])];
      k := k + 1;
    }
    assert ids[..k] == ids;
  }

  /** The inner search: the first cluster whose first variant is similar. */
  method FindSimilar(clusters: seq<Cluster>, content: string, similar: (string, string) -> bool)
    returns (found: Option<nat>)
    ensures found == FirstSimilar(clusters, content, similar)
  {
    var j := 0;
    while j < |clusters|
      invariant 0 <= j <= |clusters|
      invariant forall m :: 0 <= m < j ==> !Hits(clusters[m], content, similar)
    {
      if Hits(clusters[j], content, similar) {
        return Some(j);
      }
      j := j + 1;
    }
    return None;
  }

  /** The orphan loop: each orphan joins the first similar cluster or starts a new one. */
  method PlaceOrphans(init: seq<Cluster>, orphans: seq<Bullet>, slug: Option<string>, similar: (string, string) -> bool)
    returns (r: Option<seq<Cluster>>)
    ensures r == PlaceAll(init, orphans, slug, similar)
  {
    var clusters := init;
    var o := 0;
    while o < |orphans|
      invariant 0 <= o <= |orphans|
      invariant PlaceAll(clusters, orphans[o..], slug, similar) == PlaceAll(init, orphans, slug, similar)
    {
      var orphan := orphans[o];
      assert orphans[o..][0] == orphan && orphans[o..][1..] == orphans[o + 1..];
      var found := FindSimilar(clusters, orphan.content, similar);
      if found.Some? {
        var j := found.value;
        clusters := clusters[j := clusters[j].(variants := clusters[j].variants + [orphan])];
      } else {
        if slug.None? {
          return None;
        }
        clusters := clusters + [Cluster(AutoId(slug.value, |clusters|), [orphan])];
      }
      o := o + 1;
    }
    return Some(clusters);
  }

  /** The output loop: one slot per cluster. */
  method FormatClusters(clusters: seq<Cluster>) returns (out: seq<Slot>)
    ensures out == FormatAll(clusters)
  {
    out := [];
    var c := 0;
    while c < |clusters|
      invariant 0 <= c <= |clusters|
      invariant out == FormatAll(clusters[..c])
    {
      assert clusters[..c + 1][..c] == clusters[..c];
      var header := HeaderOf(clusters[c].variants);
      var variants := DistinctVariants(clusters[c].variants);
      out := out + [Slot(clusters[c].id, header, variants)];
      c := c + 1;
    }
    assert clusters[..c] == clusters;
  }

  /** `process_slots` */
  method ProcessSlots(rows: seq<Row>, context: string, similar: (string, string) -> bool)
    returns (slots: Option<seq<Slot>>)
    ensures slots == ProcessedSlots(rows, context, similar)
  {
    var ids, manual, orphans := GroupRows(rows);
    var clusters := ManualToClusters(ids, manual);
    var placed := PlaceOrphans(clusters, orphans, Slug(context), similar);
    if placed.None? {
      return None;
    }
    var out := FormatClusters(placed.value);
    return Some(out);
  }

  // ---------------------------------------------------------------------
  // Skills: the rows whose record type is "Skills", clustered under "skills"

  function RowsOfType(rows: seq<Row>, t: string): (r: seq<Row>)
    ensures |r| <= |rows| && forall k :: 0 <= k < |r| ==> r[k].recordType == Some(t)
  {
    if rows == [] then []
    else RowsOfType(rows[..|rows| - 1], t) + (if rows[|rows| - 1].recordType == Some(t) then [rows[|rows| - 1]] else [])
  }

  /** `golden_record['skills']`: empty when the spreadsheet has no record-type column. */
  function SkillSlots(rows: seq<Row>, hasRecordType: bool, similar: (string, string) -> bool): Option<seq<Slot>> {
    if hasRecordType then ProcessedSlots(RowsOfType(rows, "Skills"), "skills", similar) else Some([])
  }

  /** The skills context always has a slug, so clustering the skill rows never fails. */
  lemma SkillSlotsDefined(rows: seq<Row>, hasRecordType: bool, similar: (string, string) -> bool)
    ensures SkillSlots(rows, hasRecordType, similar).Some?
    ensures hasRecordType ==>
      SlotsShape(SkillSlots(rows, hasRecordType, similar).value, Grouped(Bullets(RowsOfType(rows, "Skills"))), Slug("skills"))
  {
    assert !IsSpace(Lower("skills")[0]);
    var g := Grouped(Bullets(RowsOfType(rows, "Skills")));
    PlaceAllDefined(ManualClusters(g.ids, g.manual), g.orphans, Slug("skills"), similar);
    ProcessedSlotsFacts(RowsOfType(rows, "Skills"), "skills", similar);
  }

  // ---------------------------------------------------------------------
  // Education: deduplicated by (institution, degree)

  datatype Edu = Edu(institution: string, area: string, dates: string, location: string)

  predicate IsEducation(row: Row) {
    row.recordType == Some("Education")
  }

  /** `unique_key`: the institution and the degree, "" where missing. */
  function EduKey(row: Row): (string, string) {
    (GetOr(row.org, ""), GetOr(row.role, ""))
  }

  function EduOf(row: Row): (e: Edu)
    ensures KeyOf(e) == EduKey(row)
  {
    Edu(GetOr(row.org, ""), GetOr(row.role, ""), GetOr(row.dates, ""), GetOr(row.location, ""))
  }

  function KeyOf(e: Edu): (string, string) {
    (e.institution, e.area)
  }

  /** `seen_edu`, as the keys of the entries kept so far. */
  function EduKeys(es: seq<Edu>): set<(string, string)> {
    set k | 0 <= k < |es| :: KeyOf(es[k])
  }

  /** `(inst or degree)` */
  predicate Named(key: (string, string)) {
    key.0 != "" || key.1 != ""
  }

  /** The education loop, row by row. */
  function EduLoop(rows: seq<Row>): seq<Edu> {
    if rows == [] then []
    else
      var r := EduLoop(rows[..|rows| - 1]);
      var row := rows[|rows| - 1];
      if IsEducation(row) && EduKey(row) !in EduKeys(r) && Named(EduKey(row)) then r + [EduOf(row)] else r
  }

  /** `golden_record['education']`: empty when the spreadsheet has no record-type column. */
  function Educations(rows: seq<Row>, hasRecordType: bool): seq<Edu> {
    if hasRecordType then EduLoop(rows) else []
  }

  /** Row `j` is an education row with a name, and no earlier education row has its key. */
  predicate IsFirstEdu(rows: seq<Row>, j: nat)
    requires j < |rows|
  {
    && IsEducation(rows[j]) && Named(EduKey(rows[j]))
    && forall p :: 0 <= p < j ==> IsEducation(rows[p]) ==> EduKey(rows[p]) != EduKey(rows[j])
  }

  /** Reference definition: the first education row of each named key, in order. */
  function FirstEdus(rows: seq<Row>): seq<Edu> {
    if rows == [] then []
    else FirstEdus(rows[..|rows| - 1]) + (if IsFirstEdu(rows, |rows| - 1) then [EduOf(rows[|rows| - 1])] else [])
  }

  /** The keys of the named education rows. */
  function NamedKeys(rows: seq<Row>): set<(string, string)> {
    set k | 0 <= k < |rows| && IsEducation(rows[k]) && Named(EduKey(rows[k])) :: EduKey(rows[k])
  }

  predicate KeysDistinct(es: seq<Edu>) {
    forall j, k :: 0 <= j < k < |es| ==> KeyOf(es[j]) != KeyOf(es[k])
  }

  lemma EduStep(rows: seq<Row>)
    requires rows != []
    ensures var r0 := EduLoop(rows[..|rows| - 1]);
      var row := rows[|rows| - 1];
      if IsEducation(row) && EduKey(row) !in EduKeys(r0) && Named(EduKey(row))
      then EduLoop(rows) == r0 + [EduOf(row)] && EduKeys(EduLoop(rows)) == EduKeys(r0) + {EduKey(row)}
      else EduLoop(rows) == r0
  {
    var r0 := EduLoop(rows[..|rows| - 1]);
    var row := rows[|rows| - 1];
    if IsEducation(row) && EduKey(row) !in EduKeys(r0) && Named(EduKey(row)) {
      var r := r0 + [EduOf(row)];
      forall key | key in EduKeys(r) ensures key in EduKeys(r0) + {EduKey(row)} {
        var k :| 0 <= k < |r| && KeyOf(r[k]) == key;
        if k < |r0| {
          assert r0[k] == r[k];
        }
      }
      forall key | key in EduKeys(r0) + {EduKey(row)} ensures key in EduKeys(r) {
        if key == EduKey(row) {
          assert KeyOf(r[|r0|]) == key;
        } else {
          var k :| 0 <= k < |r0| && KeyOf(r0[k]) == key;
          assert KeyOf(r[k]) == key;
        }
      }
    }
  }

  /** The keys kept are exactly the keys of the named education rows. */
  lemma {:induction false} EduKeysOf(rows: seq<Row>)
    ensures EduKeys(EduLoop(rows)) == NamedKeys(rows)
    decreases |rows|
  {
    if rows != [] {
      var pre := rows[..|rows| - 1];
      var row := rows[|rows| - 1];
      EduKeysOf(pre);
      EduStep(rows);
      var added := if IsEducation(row) && Named(EduKey(row)) then {EduKey(row)} else {};
      assert NamedKeys(rows) == NamedKeys(pre) + added by {
        forall key | key in NamedKeys(rows) ensures key in NamedKeys(pre) + added {
          var k :| 0 <= k < |rows| && IsEducation(rows[k]) && Named(EduKey(rows[k])) && EduKey(rows[k]) == key;
          if k < |pre| {
            assert pre[k] == rows[k];
          }
        }
        forall key | key in NamedKeys(pre) ensures key in NamedKeys(rows) {
          var k :| 0 <= k < |pre| && IsEducation(pre[k]) && Named(EduKey(pre[k])) && EduKey(pre[k]) == key;
          assert rows[k] == pre[k];
        }
      }
    }
  }

  /** An earlier education row sharing a named key is itself named. */
  lemma {:induction false} EduIsFirsts(rows: seq<Row>)
    ensures EduLoop(rows) == FirstEdus(rows)
    decreases |rows|
  {
    if rows != [] {
      var pre := rows[..|rows| - 1];
      var row := rows[|rows| - 1];
      EduIsFirsts(pre);
      EduKeysOf(pre);
      EduStep(rows);
      assert forall p :: 0 <= p < |pre| ==> pre[p] == rows[p];
      if IsEducation(row) && Named(EduKey(row)) {
        assert EduKey(row) in NamedKeys(pre) <==> !IsFirstEdu(rows, |rows| - 1);
      }
    }
  }

  lemma {:induction false} EduDistinct(rows: seq<Row>)
    ensures KeysDistinct(EduLoop(rows))
    decreases |rows|
  {
    if rows != [] {
      EduDistinct(rows[..|rows| - 1]);
      EduStep(rows);
      var r0 := EduLoop(rows[..|rows| - 1]);
      assert forall k :: 0 <= k < |r0| ==> KeyOf(r0[k]) in EduKeys(r0);
    }
  }

  /** The entries have pairwise distinct (institution, degree) keys, none with both
      empty, one for every key of a named education row, and each is the first
      education row with its key, in row order. Without a record-type column there
      are none. */
  lemma EduFacts(rows: seq<Row>, hasRecordType: bool)
    ensures var es := Educations(rows, hasRecordType);
      && KeysDistinct(es)
      && (forall k :: 0 <= k < |es| ==> Named(KeyOf(es[k])))
      && (hasRecordType ==> EduKeys(es) == NamedKeys(rows) && es == FirstEdus(rows))
      && (!hasRecordType ==> es == [])
  {
    if hasRecordType {
      EduDistinct(rows);
      EduKeysOf(rows);
      EduIsFirsts(rows);
      var es := EduLoop(rows);
      forall k | 0 <= k < |es| ensures Named(KeyOf(es[k])) {
        assert KeyOf(es[k]) in EduKeys(es);
      }
    }
  }

  /** The education loop with its `seen_edu` set. */
  method CollectEducation(rows: seq<Row>, hasRecordType: bool) returns (education: seq<Edu>)
    ensures education == Educations(rows, hasRecordType)
  {
    education := [];
    if !hasRecordType {
      return;
    }
    var seen: set<(string, string)> := {};
    var i := 0;
    while i < |rows|
      invariant 0 <= i <= |rows|
      invariant education == EduLoop(rows[..i]) && seen == EduKeys(education)
    {
      assert rows[..i + 1][..i] == rows[..i];
      EduStep(rows[..i + 1]);
      var row := rows[i];
      if IsEducation(row) {
        var inst := GetOr(row.org, "");
        var degree := GetOr(row.role, "");
        var key := (inst, degree);
        if key !in seen && (inst != "" || degree != "") {
          education := education + [Edu(inst, degree, GetOr(row.dates, ""), GetOr(row.location, ""))];
          seen := seen + {key};
        }
      }
      i := i + 1;
    }
    assert rows[..i] == rows;
  }

  // ---------------------------------------------------------------------
  // Variant summaries

  datatype Summary = Summary(title: string, summary: string)

  function SummaryOf(row: Row): (s: Summary)
    ensures s.title == (if row.roleTitle.Some? then row.roleTitle.value else DefaultTitle)
    ensures s.summary == (if row.roleSummary.Some? then row.roleSummary.value else "")
  {
    Summary(GetOr(row.roleTitle, DefaultTitle), GetOr(row.roleSummary, ""))
  }

  /** `drop_duplicates(subset=[COL_VARIANT])` then the loop: the first row of each
      named variant type. */
  function SummaryLoop(rows: seq<Row>): map<string, Summary> {
    if rows == [] then map[]
    else
      var m := SummaryLoop(rows[..|rows| - 1]);
      var row := rows[|rows| - 1];
      if row.variant.Some? && row.variant.value !in m then m[row.variant.value := SummaryOf(row)] else m
  }

  /** `golden_record['variant_summaries']`: empty unless both metadata columns exist. */
  function VariantSummaries(rows: seq<Row>, hasColumns: bool): map<string, Summary> {
    if hasColumns then SummaryLoop(rows) else map[]
  }

  /** Row `j` is the first row naming its variant type. */
  predicate FirstOfVariant(rows: seq<Row>, j: nat)
    requires j < |rows|
  {
    rows[j].variant.Some? && forall p :: 0 <= p < j ==> rows[p].variant != rows[j].variant
  }

  /** The types some row names. */
  function NamedVariants(rows: seq<Row>): set<string> {
    set k | 0 <= k < |rows| && rows[k].variant.Some? :: rows[k].variant.value
  }

  /** The map has one key per variant type some row names. */
  lemma {:induction false} SummaryKeys(rows: seq<Row>)
    ensures SummaryLoop(rows).Keys == NamedVariants(rows)
    decreases |rows|
  {
    if rows != [] {
      var pre := rows[..|rows| - 1];
      var row := rows[|rows| - 1];
      SummaryKeys(pre);
      var added := if row.variant.Some? then {row.variant.value} else {};
      assert NamedVariants(rows) == NamedVariants(pre) + added by {
        forall v | v in NamedVariants(rows) ensures v in NamedVariants(pre) + added {
          var k :| 0 <= k < |rows| && rows[k].variant.Some? && rows[k].variant.value == v;
          if k < |pre| {
            assert pre[k] == rows[k];
          }
        }
        forall v | v in NamedVariants(pre) ensures v in NamedVariants(rows) {
          var k :| 0 <= k < |pre| && pre[k].variant.Some? && pre[k].variant.value == v;
          assert rows[k] == pre[k];
        }
      }
    }
  }

  /** Each value comes from the first row naming its type. */
  lemma {:induction false} SummaryFirst(rows: seq<Row>, j: nat)
    requires j < |rows| && FirstOfVariant(rows, j)
    ensures rows[j].variant.value in SummaryLoop(rows)
    ensures SummaryLoop(rows)[rows[j].variant.value] == SummaryOf(rows[j])
    decreases |rows|
  {
    var pre := rows[..|rows| - 1];
    var v := rows[j].variant.value;
    if j < |rows| - 1 {
      assert forall p :: 0 <= p <= j ==> pre[p] == rows[p];
      SummaryFirst(pre, j);
    } else {
      SummaryKeys(pre);
      assert forall k :: 0 <= k < |pre| ==> pre[k] == rows[k];
      assert v !in NamedVariants(pre);
    }
  }

  lemma SummaryFacts(rows: seq<Row>, hasColumns: bool)
    ensures var m := VariantSummaries(rows, hasColumns);
      && m.Keys == (if hasColumns then NamedVariants(rows) else {})
      && (forall j :: 0 <= j < |rows| && hasColumns && FirstOfVariant(rows, j) ==>
            m[rows[j].variant.value] == SummaryOf(rows[j]))
  {
    if hasColumns {
      SummaryKeys(rows);
      forall j | 0 <= j < |rows| && FirstOfVariant(rows, j)
        ensures SummaryLoop(rows)[rows[j].variant.value] == SummaryOf(rows[j])
      {
        SummaryFirst(rows, j);
      }
    }
  }

  /** The summaries loop. */
  method CollectSummaries(rows: seq<Row>, hasColumns: bool) returns (summaries: map<string, Summary>)
    ensures summaries == VariantSummaries(rows, hasColumns)
  {
    summaries := map[];
    if !hasColumns {
      return;
    }
    var i := 0;
    while i < |rows|
      invariant 0 <= i <= |rows|
      invariant summaries == SummaryLoop(rows[..i])
    {
      assert rows[..i + 1][..i] == rows[..i];
      var row := rows[i];
      if row.variant.Some? && row.variant.value !in summaries {
        summaries := summaries[row.variant.value := Summary(GetOr(row.roleTitle, DefaultTitle), GetOr(row.roleSummary, ""))];
      }
      i := i + 1;
    }
    assert rows[..i] == rows;
  }

  // ---------------------------------------------------------------------
  // Experience: one job per organisation, in order of first appearance

  datatype Job = Job(company: string, role: string, dates: string, location: string, slots: seq<Slot>)

  /** `df[COL_RECORD_TYPE] == 'Experience'` or `df[COL_RECORD_TYPE].isna()` */
  predicate IsExperience(row: Row) {
    row.recordType.None? || row.recordType == Some("Experience")
  }

  function ExperienceFilter(rows: seq<Row>): (r: seq<Row>)
    ensures |r| <= |rows| && forall k :: 0 <= k < |r| ==> IsExperience(r[k])
  {
    if rows == [] then []
    else ExperienceFilter(rows[..|rows| - 1]) + (if IsExperience(rows[|rows| - 1]) then [rows[|rows| - 1]] else [])
  }

  /** `exp_df`: every row when the spreadsheet has no record-type column. */
  function ExperienceRows(rows: seq<Row>, hasRecordType: bool): seq<Row> {
    if hasRecordType then ExperienceFilter(rows) else rows
  }

  /** `exp_df[COL_ORG].unique()` without the NaN, which the loop skips. */
  function Orgs(rows: seq<Row>): seq<string> {
    if rows == [] then []
    else
      var os := Orgs(rows[..|rows| - 1]);
      var o := rows[|rows| - 1].org;
      if o.Some? && o.value !in os then os + [o.value] else os
  }

  /** `exp_df[exp_df[COL_ORG] == org_name]` */
  function OrgRows(rows: seq<Row>, o: string): (r: seq<Row>)
    ensures |r| <= |rows| && forall k :: 0 <= k < |r| ==> r[k].org == Some(o)
  {
    if rows == [] then []
    else OrgRows(rows[..|rows| - 1], o) + (if rows[|rows| - 1].org == Some(o) then [rows[|rows| - 1]] else [])
  }

  /** The organisations some row names. */
  function OrgNames(rows: seq<Row>): set<string> {
    set k | 0 <= k < |rows| && rows[k].org.Some? :: rows[k].org.value
  }

  /** Row `j` names an organisation that no earlier row names. */
  predicate IsFirstOrg(rows: seq<Row>, j: nat)
    requires j < |rows|
  {
    rows[j].org.Some? && forall p :: 0 <= p < j ==> rows[p].org != rows[j].org
  }

  /** Reference definition: the organisation of each row that is the first to name it. */
  function FirstOrgs(rows: seq<Row>): seq<string> {
    if rows == [] then []
    else FirstOrgs(rows[..|rows| - 1]) + (if IsFirstOrg(rows, |rows| - 1) then [rows[|rows| - 1].org.value] else [])
  }

  lemma {:induction false} OrgsNames(rows: seq<Row>)
    ensures forall o :: o in Orgs(rows) <==> o in OrgNames(rows)
    decreases |rows|
  {
    if rows != [] {
      var pre := rows[..|rows| - 1];
      var row := rows[|rows| - 1];
      OrgsNames(pre);
      var added := if row.org.Some? then {row.org.value} else {};
      assert OrgNames(rows) == OrgNames(pre) + added by {
        forall o | o in OrgNames(rows) ensures o in OrgNames(pre) + added {
          var k :| 0 <= k < |rows| && rows[k].org.Some? && rows[k].org.value == o;
          if k < |pre| {
            assert pre[k] == rows[k];
          }
        }
        forall o | o in OrgNames(pre) ensures o in OrgNames(rows) {
          var k :| 0 <= k < |pre| && pre[k].org.Some? && pre[k].org.value == o;
          assert rows[k] == pre[k];
        }
      }
    }
  }

  lemma {:induction false} OrgsDistinct(rows: seq<Row>)
    ensures forall j, k :: 0 <= j < k < |Orgs(rows)| ==> Orgs(rows)[j] != Orgs(rows)[k]
    decreases |rows|
  {
    if rows != [] {
      OrgsDistinct(rows[..|rows| - 1]);
    }
  }

  lemma {:induction false} OrgsIsFirsts(rows: seq<Row>)
    ensures Orgs(rows) == FirstOrgs(rows)
    decreases |rows|
  {
    if rows != [] {
      var pre := rows[..|rows| - 1];
      var row := rows[|rows| - 1];
      OrgsIsFirsts(pre);
      OrgsNames(pre);
      assert forall p :: 0 <= p < |pre| ==> pre[p] == rows[p];
      if row.org.Some? {
        assert row.org.value in OrgNames(pre) <==> !IsFirstOrg(rows, |rows| - 1);
      }
    }
  }

  lemma {:induction false} OrgsHaveRows(rows: seq<Row>)
    ensures forall k :: 0 <= k < |Orgs(rows)| ==> OrgRows(rows, Orgs(rows)[k]) != []
    decreases |rows|
  {
    if rows != [] {
      OrgsHaveRows(rows[..|rows| - 1]);
    }
  }

  lemma {:induction false} OrgRowsNone(rows: seq<Row>, o: string)
    requires forall p :: 0 <= p < |rows| ==> rows[p].org != Some(o)
    ensures OrgRows(rows, o) == []
    decreases |rows|
  {
    if rows != [] {
      OrgRowsNone(rows[..|rows| - 1], o);
    }
  }

  /** `org_rows.iloc[0]` is the first row that names the organisation. */
  lemma {:induction false} OrgFirstRow(rows: seq<Row>, j: nat)
    requires j < |rows| && IsFirstOrg(rows, j)
    ensures OrgRows(rows, rows[j].org.value) != [] && OrgRows(rows, rows[j].org.value)[0] == rows[j]
    decreases |rows|
  {
    var pre := rows[..|rows| - 1];
    var o := rows[j].org.value;
    if j < |rows| - 1 {
      assert forall p :: 0 <= p <= j ==> pre[p] == rows[p];
      OrgFirstRow(pre, j);
    } else {
      assert forall p :: 0 <= p < |pre| ==> pre[p] == rows[p];
      OrgRowsNone(pre, o);
    }
  }

  /** `job_entry` for organisation `o`, given how its rows cluster; `None` where
      `process_slots` raises. */
  function JobOf(rows: seq<Row>, o: string, slots: Option<seq<Slot>>): Option<Job>
    requires OrgRows(rows, o) != []
  {
    var first := OrgRows(rows, o)[0];
    match slots
    case None => None
    case Some(ss) => Some(Job(o, GetOr(first.role, DefaultTitle), GetOr(first.dates, ""), GetOr(first.location, ""), ss))
  }

  /** `process_slots(org_rows, org_name)` for each organisation of `os`, in order. */
  function ClusterAll(exp: seq<Row>, os: seq<string>, similar: (string, string) -> bool): (r: seq<Option<seq<Slot>>>)
    ensures |r| == |os|
  {
    if os == [] then []
    else ClusterAll(exp, os[..|os| - 1], similar) + [ProcessedSlots(OrgRows(exp, os[|os| - 1]), os[|os| - 1], similar)]
  }

  lemma {:induction false} ClusterAllAt(exp: seq<Row>, os: seq<string>, similar: (string, string) -> bool, k: nat)
    requires k < |os|
    ensures ClusterAll(exp, os, similar)[k] == ProcessedSlots(OrgRows(exp, os[k]), os[k], similar)
    decreases |os|
  {
    if k < |os| - 1 {
      ClusterAllAt(exp, os[..|os| - 1], similar, k);
    }
  }

  predicate AllHaveRows(rows: seq<Row>, os: seq<string>) {
    forall k :: 0 <= k < |os| ==> OrgRows(rows, os[k]) != []
  }

  /** The experience loop over the organisations `os`, whose rows cluster as `ss`. */
  function Jobs(rows: seq<Row>, os: seq<string>, ss: seq<Option<seq<Slot>>>): Option<seq<Job>>
    requires AllHaveRows(rows, os) && |ss| == |os|
  {
    if os == [] then Some([])
    else
      match Jobs(rows, os[..|os| - 1], ss[..|ss| - 1])
      case None => None
      case Some(js) =>
        match JobOf(rows, os[|os| - 1], ss[|ss| - 1])
        case None => None
        case Some(j) => Some(js + [j])
  }

  /** `golden_record['work_history']` */
  function WorkHistory(rows: seq<Row>, hasRecordType: bool, similar: (string, string) -> bool): Option<seq<Job>> {
    var exp := ExperienceRows(rows, hasRecordType);
    OrgsHaveRows(exp);
    Jobs(exp, Orgs(exp), ClusterAll(exp, Orgs(exp), similar))
  }

  lemma WorkHistoryUnfold(rows: seq<Row>, hasRecordType: bool, similar: (string, string) -> bool)
    ensures AllHaveRows(ExperienceRows(rows, hasRecordType), Orgs(ExperienceRows(rows, hasRecordType)))
    ensures WorkHistory(rows, hasRecordType, similar) ==
      Jobs(ExperienceRows(rows, hasRecordType), Orgs(ExperienceRows(rows, hasRecordType)),
           ClusterAll(ExperienceRows(rows, hasRecordType), Orgs(ExperienceRows(rows, hasRecordType)), similar))
  {
    OrgsHaveRows(ExperienceRows(rows, hasRecordType));
  }

  lemma JobsSnoc(rows: seq<Row>, os: seq<string>, ss: seq<Option<seq<Slot>>>)
    requires AllHaveRows(rows, os) && |ss| == |os| && os != []
    ensures AllHaveRows(rows, os[..|os| - 1])
    ensures Jobs(rows, os, ss).Some? <==> Jobs(rows, os[..|os| - 1], ss[..|ss| - 1]).Some? && ss[|ss| - 1].Some?
    ensures Jobs(rows, os, ss).Some? ==>
      Jobs(rows, os, ss).value ==
        Jobs(rows, os[..|os| - 1], ss[..|ss| - 1]).value + [JobOf(rows, os[|os| - 1], ss[|ss| - 1]).value]
  {
    assert forall k :: 0 <= k < |os| - 1 ==> os[..|os| - 1][k] == os[k];
  }

  /** The loop yields a job for every organisation or stops at the first that raises. */
  lemma {:induction false} JobsSome(rows: seq<Row>, os: seq<string>, ss: seq<Option<seq<Slot>>>)
    requires AllHaveRows(rows, os) && |ss| == |os|
    ensures Jobs(rows, os, ss).Some? <==> forall k :: 0 <= k < |ss| ==> ss[k].Some?
    decreases |os|
  {
    if os != [] {
      var pre := ss[..|ss| - 1];
      JobsSnoc(rows, os, ss);
      JobsSome(rows, os[..|os| - 1], pre);
      assert forall k :: 0 <= k < |pre| ==> pre[k] == ss[k];
    }
  }

  lemma {:induction false} JobsValue(rows: seq<Row>, os: seq<string>, ss: seq<Option<seq<Slot>>>)
    requires AllHaveRows(rows, os) && |ss| == |os| && Jobs(rows, os, ss).Some?
    ensures |Jobs(rows, os, ss).value| == |os|
    ensures forall k :: 0 <= k < |os| ==> JobOf(rows, os[k], ss[k]) == Some(Jobs(rows, os, ss).value[k])
    decreases |os|
  {
    if os != [] {
      var pre := os[..|os| - 1];
      JobsSnoc(rows, os, ss);
      JobsValue(rows, pre, ss[..|ss| - 1]);
      assert forall k :: 0 <= k < |pre| ==> pre[k] == os[k] && ss[..|ss| - 1][k] == ss[k];
    }
  }

  /** A context with a word has a slug, so clustering under it never raises. */
  lemma ProcessedSlotsDefined(rows: seq<Row>, context: string, similar: (string, string) -> bool)
    requires !AllSpace(Lower(context))
    ensures ProcessedSlots(rows, context, similar).Some?
  {
    var g := Grouped(Bullets(rows));
    PlaceAllDefined(ManualClusters(g.ids, g.manual), g.orphans, Slug(context), similar);
  }

  /** The organisations are distinct, are exactly those some row names, each once
      at the row that first names it, and each has rows. */
  lemma OrgsFacts(rows: seq<Row>)
    ensures forall j, k :: 0 <= j < k < |Orgs(rows)| ==> Orgs(rows)[j] != Orgs(rows)[k]
    ensures forall o :: o in Orgs(rows) <==> o in OrgNames(rows)
    ensures Orgs(rows) == FirstOrgs(rows)
    ensures AllHaveRows(rows, Orgs(rows))
  {
    OrgsDistinct(rows);
    OrgsNames(rows);
    OrgsIsFirsts(rows);
    OrgsHaveRows(rows);
  }

  /** Job `job` is organisation `o`'s: its role (default "Product Leader"), dates and
      location come from the organisation's first row, and its slots are the
      organisation's rows clustered under its name. */
  predicate JobMatches(exp: seq<Row>, o: string, job: Job, similar: (string, string) -> bool) {
    && OrgRows(exp, o) != []
    && job.company == o
    && job.role == GetOr(OrgRows(exp, o)[0].role, DefaultTitle)
    && job.dates == GetOr(OrgRows(exp, o)[0].dates, "")
    && job.location == GetOr(OrgRows(exp, o)[0].location, "")
    && Some(job.slots) == ProcessedSlots(OrgRows(exp, o), o, similar)
  }

  /** One job per organisation of the experience rows, in order. */
  lemma WorkHistoryJobs(rows: seq<Row>, hasRecordType: bool, similar: (string, string) -> bool)
    requires WorkHistory(rows, hasRecordType, similar).Some?
    ensures |WorkHistory(rows, hasRecordType, similar).value| == |Orgs(ExperienceRows(rows, hasRecordType))|
    ensures forall k :: 0 <= k < |Orgs(ExperienceRows(rows, hasRecordType))| ==>
      JobMatches(ExperienceRows(rows, hasRecordType), Orgs(ExperienceRows(rows, hasRecordType))[k],
                 WorkHistory(rows, hasRecordType, similar).value[k], similar)
  {
    var exp := ExperienceRows(rows, hasRecordType);
    var os := Orgs(exp);
    WorkHistoryUnfold(rows, hasRecordType, similar);
    var ss := ClusterAll(exp, os, similar);
    JobsValue(exp, os, ss);
    var js := WorkHistory(rows, hasRecordType, similar).value;
    forall k | 0 <= k < |os| ensures JobMatches(exp, os[k], js[k], similar) {
      ClusterAllAt(exp, os, similar, k);
    }
  }

  /** The history is missing exactly when clustering some organisation's rows raises. */
  lemma WorkHistoryMissing(rows: seq<Row>, hasRecordType: bool, similar: (string, string) -> bool)
    ensures WorkHistory(rows, hasRecordType, similar).None? <==>
      exists k :: 0 <= k < |Orgs(ExperienceRows(rows, hasRecordType))| &&
        var o := Orgs(ExperienceRows(rows, hasRecordType))[k];
        ProcessedSlots(OrgRows(ExperienceRows(rows, hasRecordType), o), o, similar).None?
  {
    var exp := ExperienceRows(rows, hasRecordType);
    var os := Orgs(exp);
    WorkHistoryUnfold(rows, hasRecordType, similar);
    var ss := ClusterAll(exp, os, similar);
    JobsSome(exp, os, ss);
    forall k | 0 <= k < |os| ensures ss[k] == ProcessedSlots(OrgRows(exp, os[k]), os[k], similar) {
      ClusterAllAt(exp, os, similar, k);
    }
  }

  /** When every organisation name holds a word, the history is built. */
  lemma WorkHistoryDefined(rows: seq<Row>, hasRecordType: bool, similar: (string, string) -> bool)
    requires forall k :: 0 <= k < |Orgs(ExperienceRows(rows, hasRecordType))| ==>
      !AllSpace(Lower(Orgs(ExperienceRows(rows, hasRecordType))[k]))
    ensures WorkHistory(rows, hasRecordType, similar).Some?
  {
    var exp := ExperienceRows(rows, hasRecordType);
    var os := Orgs(exp);
    WorkHistoryUnfold(rows, hasRecordType, similar);
    var ss := ClusterAll(exp, os, similar);
    JobsSome(exp, os, ss);
    forall k | 0 <= k < |os| ensures ss[k].Some? {
      ClusterAllAt(exp, os, similar, k);
      ProcessedSlotsDefined(OrgRows(exp, os[k]), os[k], similar);
    }
  }

  lemma {:induction false} JobsStopped(rows: seq<Row>, os: seq<string>, ss: seq<Option<seq<Slot>>>, n: nat)
    requires AllHaveRows(rows, os) && |ss| == |os| && n <= |os|
    requires AllHaveRows(rows, os[..n]) && Jobs(rows, os[..n], ss[..n]).None?
    ensures Jobs(rows, os, ss).None?
    decreases |os|
  {
    if n < |os| {
      var pre := os[..|os| - 1];
      assert pre[..n] == os[..n] && ss[..|ss| - 1][..n] == ss[..n];
      JobsSnoc(rows, os, ss);
      JobsStopped(rows, pre, ss[..|ss| - 1], n);
    } else {
      assert os[..n] == os && ss[..n] == ss;
    }
  }

  /** `process_slots(org_rows, org_name)` for the organisation at `i`. */
  method ClusterOrg(exp: seq<Row>, orgs: seq<string>, i: nat, similar: (string, string) -> bool)
    returns (slots: Option<seq<Slot>>)
    requires i < |orgs|
    ensures slots == ClusterAll(exp, orgs, similar)[i]
  {
    slots := ProcessSlots(OrgRows(exp, orgs[i]), orgs[i], similar);
    ClusterAllAt(exp, orgs, similar, i);
  }

  /** One turn of the experience loop. */
  lemma JobsExtend(exp: seq<Row>, orgs: seq<string>, ss: seq<Option<seq<Slot>>>, i: nat, jobs: seq<Job>)
    requires AllHaveRows(exp, orgs) && |ss| == |orgs| && i < |orgs|
    requires AllHaveRows(exp, orgs[..i]) && Jobs(exp, orgs[..i], ss[..i]) == Some(jobs)
    ensures AllHaveRows(exp, orgs[..i + 1])
    ensures ss[i].None? ==> Jobs(exp, orgs, ss).None?
    ensures ss[i].Some? ==> Jobs(exp, orgs[..i + 1], ss[..i + 1]) == Some(jobs + [JobOf(exp, orgs[i], ss[i]).value])
  {
    var cur := orgs[..i + 1];
    assert cur[..i] == orgs[..i] && cur[i] == orgs[i];
    assert ss[..i + 1][..i] == ss[..i];
    JobsSnoc(exp, cur, ss[..i + 1]);
    if ss[i].None? {
      JobsStopped(exp, orgs, ss, i + 1);
    }
  }

  /** The experience loop (`for org_name in exp_df[COL_ORG].unique()`). */
  method CollectWorkHistory(rows: seq<Row>, hasRecordType: bool, similar: (string, string) -> bool)
    returns (work: Option<seq<Job>>)
    ensures work == WorkHistory(rows, hasRecordType, similar)
  {
    var exp := ExperienceRows(rows, hasRecordType);
    var orgs := Orgs(exp);
    WorkHistoryUnfold(rows, hasRecordType, similar);
    ghost var ss := ClusterAll(exp, orgs, similar);
    var jobs: seq<Job> := [];
    var i := 0;
    while i < |orgs|
      invariant 0 <= i <= |orgs|
      invariant AllHaveRows(exp, orgs[..i]) && Jobs(exp, orgs[..i], ss[..i]) == Some(jobs)
    {
      JobsExtend(exp, orgs, ss, i, jobs);
      var first := OrgRows(exp, orgs[i])[0];
      var slots := ClusterOrg(exp, orgs, i, similar);
      if slots.None? {
        return None;
      }
      jobs := jobs + [Job(orgs[i], GetOr(first.role, DefaultTitle), GetOr(first.dates, ""), GetOr(first.location, ""), slots.value)];
      i := i + 1;
    }
    assert orgs[..i] == orgs && ss[..i] == ss;
    work := Some(jobs);
  }

  // ---------------------------------------------------------------------
  // The whole record

  datatype Basics = Basics(name: string, location: string, email: string, phone: string,
                           linkedin: string, portfolio: string)

  /** `golden_record` */
  datatype Record = Record(basics: Basics, summaries: map<string, Summary>, work: seq<Job>,
                           education: seq<Edu>, skills: seq<Slot>)

  /** Which optional columns the spreadsheet has. */
  datatype Columns = Columns(hasRecordType: bool, hasRoleColumns: bool)

  /** `str(cell)`: pandas prints a missing cell as "nan". */
  function Str(cell: Option<string>): string {
    GetOr(cell, "nan")
  }

  /** `golden_record['basics']`, from the first row. */
  function BasicsOf(row: Row): Basics {
    Basics(Str(row.appName), Str(row.appLocation), Str(row.appEmail), Str(row.appPhone),
           Str(row.appLinkedin), Str(row.appPortfolio))
  }

  /** `run_ingestion` up to the JSON dump; `None` where it raises: an empty
      spreadsheet (`df.iloc[0]`) or an experience clustering that fails. */
  function GoldenRecord(rows: seq<Row>, cols: Columns, similar: (string, string) -> bool): Option<Record> {
    if rows == [] then None
    else
      SkillSlotsDefined(rows, cols.hasRecordType, similar);
      match WorkHistory(rows, cols.hasRecordType, similar)
      case None => None
      case Some(work) =>
        Some(Record(BasicsOf(rows[0]), VariantSummaries(rows, cols.hasRoleColumns), work,
                    Educations(rows, cols.hasRecordType), SkillSlots(rows, cols.hasRecordType, similar).value))
  }

  /** The run produces a record exactly when the spreadsheet has a row and the work
      history can be built; the record's parts are the parts computed above, and each
      of the six contact fields is the first row's cell, or "nan" where it is missing. */
  lemma GoldenRecordFacts(rows: seq<Row>, cols: Columns, similar: (string, string) -> bool)
    ensures GoldenRecord(rows, cols, similar).Some? <==> rows != [] && WorkHistory(rows, cols.hasRecordType, similar).Some?
    ensures GoldenRecord(rows, cols, similar).Some? ==>
      var r := GoldenRecord(rows, cols, similar).value;
      && r.work == WorkHistory(rows, cols.hasRecordType, similar).value
      && r.education == Educations(rows, cols.hasRecordType)
      && r.summaries == VariantSummaries(rows, cols.hasRoleColumns)
      && Some(r.skills) == SkillSlots(rows, cols.hasRecordType, similar)
      && r.basics.name == (if rows[0].appName.Some? then rows[0].appName.value else "nan")
      && r.basics.location == (if rows[0].appLocation.Some? then rows[0].appLocation.value else "nan")
      && r.basics.email == (if rows[0].appEmail.Some? then rows[0].appEmail.value else "nan")
      && r.basics.phone == (if rows[0].appPhone.Some? then rows[0].appPhone.value else "nan")
      && r.basics.linkedin == (if rows[0].appLinkedin.Some? then rows[0].appLinkedin.value else "nan")
      && r.basics.portfolio == (if rows[0].appPortfolio.Some? then rows[0].appPortfolio.value else "nan")
  {
    SkillSlotsDefined(rows, cols.hasRecordType, similar);
  }

  /** `run_ingestion`: the summaries, education, skills and experience passes. */
  method RunIngestion(rows: seq<Row>, cols: Columns, similar: (string, string) -> bool) returns (record: Option<Record>)
    ensures record == GoldenRecord(rows, cols, similar)
  {
    if rows == [] {
      return None;
    }
    var first := rows[0];
    var basics := Basics(Str(first.appName), Str(first.appLocation), Str(first.appEmail), Str(first.appPhone),
                         Str(first.appLinkedin), Str(first.appPortfolio));
    var summaries := CollectSummaries(rows, cols.hasRoleColumns);
    var education := CollectEducation(rows, cols.hasRecordType);
    var skills: seq<Slot> := [];
    SkillSlotsDefined(rows, cols.hasRecordType, similar);
    if cols.hasRecordType {
      var s := ProcessSlots(RowsOfType(rows, "Skills"), "skills", similar);
      skills := s.value;
    }
    var work := CollectWorkHistory(rows, cols.hasRecordType, similar);
    if work.None? {
      return None;
    }
    return Some(Record(basics, summaries, work.value, education, skills));
  }
}
