/** The older gem engine kept in the backup directory: a fingerprint over title,
    content and status, explicit-id-first identity with smart-quote tolerant
    title search, the backup naming rule, the "code changed?" integrity check,
    and the change and error log formats.

    The working directory is a map from path to bytes; the store answers the
    title searches and the writes from two reply queues; md5 is the pair of
    parameters `md5` (over the fingerprint text) and `digest` (over file bytes);
    timestamps are parameters. */
module LastGoodEngine {
  import opened Common

  type Bytes = seq<bv8>

  /** A declared gem, posted as is. `content` is read without a default. `id` is None
      when the gem has no `id` key, and `Some(v)` when it has one, whose value `v` may
      itself be None. */
  datatype Gem = Gem(title: string, content: string, status: Option<string>, id: Option<Option<int>>, meta: map<string, string>)

  // =====================================================================
  // Fingerprint and state store
  // =====================================================================

  /** The text `get_content_hash` feeds to md5. */
  function Fingerprint(g: Gem): string {
    g.title + g.content + GetOr(g.status, "draft")
  }

  function ContentHash(md5: string -> string, g: Gem): string {
    md5(Fingerprint(g))
  }

  /** The fingerprint reads title, content and status only (a missing status is
      'draft'); the metadata and the id do not enter it. */
  lemma ContentHashFields(md5: string -> string, g: Gem, meta: map<string, string>, id: Option<Option<int>>)
    ensures ContentHash(md5, g.(meta := meta, id := id)) == ContentHash(md5, g)
    ensures g.status.None? ==> ContentHash(md5, g) == ContentHash(md5, g.(status := Some("draft")))
  {
  }

  /** The fields are concatenated without a separator, so moving text across the
      title/content boundary keeps the fingerprint. */
  lemma ContentHashBoundary(md5: string -> string, a: string, b: string, c: string, g: Gem)
    ensures ContentHash(md5, g.(title := a + b, content := c)) == ContentHash(md5, g.(title := a, content := b + c))
  {
    assert (a + b) + c + GetOr(g.status, "draft") == a + (b + c) + GetOr(g.status, "draft");
  }

  /** `load_content_state` (and the same reading of `.system_state.json`):
      a missing or unreadable file is the empty map. */
  function LoadContentState(f: StateFile): (m: map<string, string>)
    ensures !f.Stored? ==> m == map[]
    ensures f.Stored? ==> m == f.entries
  {
    if f.Stored? then f.entries else map[]
  }

  /** A remote id as a key of the content state: `str(id)`. */
  function IdKey(id: int): string { IntToString(id) }

  // =====================================================================
  // Log entries
  // =====================================================================

  /** `f"{gem_id}"` for an id that may be `None`. */
  function IdText(id: Option<int>): string {
    match id
    case Some(i) => IntToString(i)
    case None => "None"
  }

  /** A change log line, `[ts] [ACTION (STATUS)] title (ID: id)`. */
  function LogChange(ts: string, action: string, title: string, id: string, status: string): string {
    "[" + ts + "] [" + Upper(action) + " (" + Upper(status) + ")] " + title + " (ID: " + id + ")\n"
  }

  /** An error log line, `[ts] [ERROR] title - Status: code - Message: message`. */
  function LogError(ts: string, title: string, code: int, message: string): string {
    "[" + ts + "] [ERROR] " + title + " - Status: " + IntToString(code) + " - Message: " + message + "\n"
  }

  lemma UpperNoNewline(s: string)
    requires '\n' !in s
    ensures '\n' !in Upper(s)
  {
    forall i | 0 <= i < |s| ensures Upper(s)[i] != '\n' {
      assert s[i] != '\n';
    }
  }

  /** A change entry is one line: its fields come first, in order, with action and
      status upper-cased, and the only newline ends it. */
  lemma {:induction false} LogChangeIsOneLine(ts: string, action: string, title: string, id: string, status: string)
    requires '\n' !in ts && '\n' !in action && '\n' !in title && '\n' !in id && '\n' !in status
    ensures var e := LogChange(ts, action, title, id, status);
      && "[" + ts + "] [" + Upper(action) + " (" + Upper(status) + ")] " <= e
      && EndsWith(e, title + " (ID: " + id + ")\n")
      && CountChar(e, '\n') == 1
      && forall i :: 0 <= i < |Upper(action)| ==> !IsLowerLetter(Upper(action)[i])
  {
    var e := LogChange(ts, action, title, id, status);
    var head := "[" + ts + "] [" + Upper(action) + " (" + Upper(status) + ")] ";
    var k := " (ID: ";
    UpperNoNewline(action);
    UpperNoNewline(status);
    OneLine(head + title + k + id, ")\n");
    AppendAssoc(head, title, k);
    AppendAssoc(head, title + k, id);
    AppendAssoc(head, title + k + id, ")\n");
    EndsWithConcat(head, title + k + id + ")\n");
  }

  /** A text without newline followed by a single newline counts one newline. */
  lemma OneLine(body: string, nl: string)
    requires '\n' !in body && (nl == "\n" || nl == ")\n")
    ensures CountChar(body + nl, '\n') == 1
  {
    CountCharAbsent(body, '\n');
    CountCharAppend(body, nl, '\n');
    if nl == "\n" {
      assert nl[1..] == [];
    } else {
      assert nl[1..] == "\n" && nl[1..][1..] == [];
      assert CountChar(nl[1..], '\n') == 1;
    }
  }

  lemma IntToStringNoNewline(i: int)
    ensures '\n' !in IntToString(i)
  {
    var n := if i < 0 then -i else i;
    var d := NatToString(n);
    assert forall k :: 0 <= k < |d| ==> IsDigit(d[k]);
  }

  /** An error entry names the time stamp, the title, the status code and the message,
      in that order, and ends with a newline; it is one line exactly when the message
      (the reply's text) holds no newline. */
  lemma {:induction false} LogErrorIsOneLine(ts: string, title: string, code: int, message: string)
    requires '\n' !in ts && '\n' !in title
    ensures var e := LogError(ts, title, code, message);
      && "[" + ts + "] [ERROR] " + title + " - Status: " + IntToString(code) + " - Message: " <= e
      && EndsWith(e, " - Message: " + message + "\n")
      && CountChar(e, '\n') == 1 + CountChar(message, '\n')
  {
    var head := "[" + ts + "] [ERROR] " + title + " - Status: " + IntToString(code) + " - Message: ";
    var e := LogError(ts, title, code, message);
    IntToStringNoNewline(code);
    assert '\n' !in head;
    CountCharAbsent(head, '\n');
    CountCharAppend(head, message, '\n');
    CountCharAppend(head + message, "\n", '\n');
    assert CountChar("\n", '\n') == 1 by { assert "\n"[1..] == []; }
    assert e == head + message + "\n";
    EndsWithConcat(head, message + "\n");
    AppendAssoc(head, message, "\n");
    var h0 := "[" + ts + "] [ERROR] " + title + " - Status: " + IntToString(code);
    assert head == h0 + " - Message: ";
    AppendAssoc(h0, " - Message: ", message + "\n");
    EndsWithConcat(h0, " - Message: " + message + "\n");
  }

  // =====================================================================
  // Backups
  // =====================================================================

  const BackupDir := "backups/"

  /** The files `create_backup` copies, in order. */
  const BackedUp: seq<string> := ["content_store.py", "publish_gem.py"]

  /** `os.path.join("backups", f.replace(".py", ".last_good.py"))` */
  function BackupName(f: string): string {
    BackupDir + ReplaceAll(f, ".py", ".last_good.py")
  }

  /** A pattern that occurs only as the suffix, its first character absent from the stem, is replaced once. */
  lemma {:induction false} ReplaceSuffixOnce(stem: string, pat: string, rep: string)
    requires |pat| > 0 && pat[0] !in stem
    ensures ReplaceAll(stem + pat, pat, rep) == stem + rep
    decreases |stem|
  {
    var s := stem + pat;
    if stem == [] {
      assert s == pat;
      ReplaceWhole(pat, rep);
    } else {
      assert s[0] == stem[0] != pat[0] && pat[0] !in stem[1..];
      ReplaceSkipFirst(s, pat, rep);
      assert s[1..] == stem[1..] + pat;
      ReplaceSuffixOnce(stem[1..], pat, rep);
      assert stem + rep == [stem[0]] + (stem[1..] + rep);
    }
  }

  lemma ReplaceWhole(pat: string, rep: string)
    requires |pat| > 0
    ensures ReplaceAll(pat, pat, rep) == rep
  {
    assert pat[..|pat|] == pat && pat[|pat|..] == [];
    assert rep + [] == rep;
  }

  lemma ReplaceSkipFirst(s: string, pat: string, rep: string)
    requires |pat| > 0 && |s| >= |pat| && s[0] != pat[0]
    ensures ReplaceAll(s, pat, rep) == [s[0]] + ReplaceAll(s[1..], pat, rep)
  {
    assert s[..|pat|][0] == s[0];
  }

  lemma ReplaceModuleSuffix(stem: string)
    requires '.' !in stem
    ensures ReplaceAll(stem + ".py", ".py", ".last_good.py") == stem + ".last_good.py"
  {
    ReplaceSuffixOnce(stem, ".py", ".last_good.py");
  }

  /** A module name `<stem>.py` whose stem has no dot is backed up as `backups/<stem>.last_good.py`. */
  lemma BackupNameOfModule(stem: string, f: string)
    requires '.' !in stem && f == stem + ".py"
    ensures BackupName(f) == BackupDir + stem + ".last_good.py"
  {
    ReplaceModuleSuffix(stem);
  }

  /** `create_backup`: each listed file that exists is copied to its backup name;
      a missing one only prints a warning, and the loop goes on. */
  function CopyEach(files: map<string, Bytes>, names: seq<string>): map<string, Bytes> {
    if names == [] then files
    else
      var before := CopyEach(files, names[..|names| - 1]);
      var f := names[|names| - 1];
      if f in before then before[BackupName(f) := before[f]] else before
  }

  /** No backup name is a source name, and the backup names are distinct. */
  predicate DisjointBackups(names: seq<string>) {
    && (forall i, j :: 0 <= i < |names| && 0 <= j < |names| ==> BackupName(names[i]) != names[j])
    && (forall i, j :: 0 <= i < j < |names| ==> BackupName(names[i]) != BackupName(names[j]))
  }

  predicate IsBackupOf(p: string, names: seq<string>) {
    exists i :: 0 <= i < |names| && p == BackupName(names[i])
  }

  lemma DisjointPrefix(names: seq<string>)
    requires DisjointBackups(names) && names != []
    ensures DisjointBackups(names[..|names| - 1])
  {
    var init := names[..|names| - 1];
    assert forall i :: 0 <= i < |init| ==> init[i] == names[i];
  }

  /** A path that is no listed file's backup name is not touched. */
  lemma {:induction false} CopyEachOther(files: map<string, Bytes>, names: seq<string>, p: string)
    requires !IsBackupOf(p, names)
    ensures var r := CopyEach(files, names); (p in r <==> p in files) && (p in r ==> r[p] == files[p])
  {
    if names != [] {
      var init := names[..|names| - 1];
      forall j | 0 <= j < |init| ensures p != BackupName(init[j]) {
        assert init[j] == names[j];
      }
      CopyEachOther(files, init, p);
      assert p != BackupName(names[|names| - 1]);
    }
  }

  /** A listed file's backup holds its bytes when it exists, and is left as it was when it does not. */
  lemma {:induction false} CopyEachSource(files: map<string, Bytes>, names: seq<string>, i: nat)
    requires DisjointBackups(names) && i < |names|
    ensures var r := CopyEach(files, names); var b := BackupName(names[i]);
      && (names[i] in files ==> b in r && r[b] == files[names[i]])
      && (names[i] !in files ==> (b in r <==> b in files) && (b in r ==> r[b] == files[b]))
  {
    var init := names[..|names| - 1];
    var f := names[|names| - 1];
    var before := CopyEach(files, init);
    DisjointPrefix(names);
    if i == |names| - 1 {
      forall j | 0 <= j < |init| ensures f != BackupName(init[j]) {
        assert init[j] == names[j];
      }
      CopyEachOther(files, init, f);
      forall j | 0 <= j < |init| ensures BackupName(f) != BackupName(init[j]) {
        assert init[j] == names[j];
      }
      CopyEachOther(files, init, BackupName(f));
    } else {
      assert init[i] == names[i];
      CopyEachSource(files, init, i);
      assert BackupName(names[i]) != BackupName(names[|names| - 1]);
    }
  }

  /** Each backup holds its source's bytes when the source exists, a missing source
      leaves its backup slot as it was (one failure does not stop the others), and
      no other path changes. */
  lemma CopyEachEffect(files: map<string, Bytes>, names: seq<string>)
    requires DisjointBackups(names)
    ensures var r := CopyEach(files, names);
      && (forall i :: 0 <= i < |names| && names[i] in files ==>
            BackupName(names[i]) in r && r[BackupName(names[i])] == files[names[i]])
      && (forall i :: 0 <= i < |names| && names[i] !in files ==>
            (BackupName(names[i]) in r <==> BackupName(names[i]) in files)
            && (BackupName(names[i]) in r ==> r[BackupName(names[i])] == files[BackupName(names[i])]))
      && (forall p :: !IsBackupOf(p, names) ==> (p in r <==> p in files) && (p in r ==> r[p] == files[p]))
  {
    forall i | 0 <= i < |names| { CopyEachSource(files, names, i); }
    forall p | !IsBackupOf(p, names) { CopyEachOther(files, names, p); }
  }

  lemma BackedUpDisjoint()
    ensures DisjointBackups(BackedUp)
  {
    assert BackedUp[0] == "content_store" + ".py" && BackedUp[1] == "publish_gem" + ".py";
    assert BackedUp == [BackedUp[0], BackedUp[1]];
    ModulesDisjoint(BackedUp, "content_store", "publish_gem");
  }

  /** Two modules `<a>.py` and `<b>.py` with dot-free stems whose lengths differ, and
      differ by other than the 18 characters that `backups/` and `.last_good` add. */
  lemma ModulesDisjoint(names: seq<string>, a: string, b: string)
    requires '.' !in a && '.' !in b && |a| != |b| && |a| != |b| + 18 && |b| != |a| + 18
    requires names == [a + ".py", b + ".py"]
    ensures DisjointBackups(names)
  {
    BackupNameOfModule(a, names[0]);
    BackupNameOfModule(b, names[1]);
    assert |BackupName(names[0])| != |names[0]| && |BackupName(names[0])| != |names[1]|;
    assert |BackupName(names[1])| != |names[0]| && |BackupName(names[1])| != |names[1]|;
  }

  // =====================================================================
  // Integrity check
  // =====================================================================

  /** The files `check_code_changes` hashes, in order. */
  const Tracked: seq<string> := ["publish_gem.py", "content_store.py"]

  /** The loop of lines 103-111: the hashes of the readable files, and the files
      whose hash differs from the recorded one (or has none recorded), in order. */
  function HashTracked(files: map<string, Bytes>, last: map<string, string>, digest: Bytes -> string, names: seq<string>)
    : (map<string, string>, seq<string>)
  {
    if names == [] then (map[], [])
    else
      var (current, changes) := HashTracked(files, last, digest, names[..|names| - 1]);
      var f := names[|names| - 1];
      if f !in files then (current, changes)
      else
        var h := digest(files[f]);
        (current[f := h], if f !in last || last[f] != h then changes + [f] else changes)
  }

  predicate Changed(files: map<string, Bytes>, last: map<string, string>, digest: Bytes -> string, f: string) {
    f in files && (f !in last || last[f] != digest(files[f]))
  }

  /** A listed file is in `changes` exactly when it is readable and its hash is not
      the recorded one; `current` holds the hash of exactly the readable files. */
  lemma {:induction false} HashTrackedRule(files: map<string, Bytes>, last: map<string, string>, digest: Bytes -> string, names: seq<string>)
    ensures var (current, changes) := HashTracked(files, last, digest, names);
      && (forall f :: f in changes <==> f in names && Changed(files, last, digest, f))
      && (forall f :: f in current <==> f in names && f in files)
      && (forall f :: f in current ==> current[f] == digest(files[f]))
  {
    if names != [] {
      var init := names[..|names| - 1];
      HashTrackedRule(files, last, digest, init);
      assert forall f :: f in names <==> f in init || f == names[|names| - 1];
    }
  }

  // =====================================================================
  // Finding the remote id
  // =====================================================================

  /** The smart-quote normalisation of lines 135-136. */
  function QuoteNorm(s: string): string {
    ReplaceAll(ReplaceAll(ReplaceAll(s, "\U{201C}", "\""), "\U{201D}", "\""), "\U{2019}", "'")
  }

  function QuoteChar(c: char): char {
    if c == '\U{201C}' || c == '\U{201D}' then '"' else if c == '\U{2019}' then '\'' else c
  }

  lemma QuoteNormPointwise(s: string)
    ensures |QuoteNorm(s)| == |s|
    ensures forall i :: 0 <= i < |s| ==> QuoteNorm(s)[i] == QuoteChar(s[i])
  {
    ReplaceCharPointwise(s, '\U{201C}', '"');
    var a := ReplaceAll(s, "\U{201C}", "\"");
    ReplaceCharPointwise(a, '\U{201D}', '"');
    var b := ReplaceAll(a, "\U{201D}", "\"");
    ReplaceCharPointwise(b, '\U{2019}', '\'');
  }

  /** Normalising twice is normalising once. */
  lemma QuoteNormIdempotent(s: string)
    ensures QuoteNorm(QuoteNorm(s)) == QuoteNorm(s)
  {
    QuoteNormPointwise(s);
    QuoteNormPointwise(QuoteNorm(s));
  }

  predicate TitleMatches(rendered: string, title: string) {
    QuoteNorm(Unescape(rendered)) == QuoteNorm(title)
  }

  /** A rendered title that differs from the local one only in smart versus straight
      quotes matches it (when it holds no character reference). */
  lemma SmartQuotesMatch(rendered: string, title: string)
    requires '&' !in rendered
    requires |rendered| == |title|
    requires forall i :: 0 <= i < |title| ==> QuoteChar(rendered[i]) == QuoteChar(title[i])
    ensures TitleMatches(rendered, title)
  {
    UnescapePlain(rendered);
    QuoteNormPointwise(rendered);
    QuoteNormPointwise(title);
  }

  datatype SearchItem = SearchItem(rendered: string, id: int)

  /** The first search result whose title matches, from index `k` on. */
  function FirstMatch(items: seq<SearchItem>, title: string, k: nat): (r: Option<nat>)
    decreases |items| - k
    ensures r.Some? ==> k <= r.value < |items| && TitleMatches(items[r.value].rendered, title)
    ensures r.Some? ==> forall j :: k <= j < r.value ==> !TitleMatches(items[j].rendered, title)
    ensures r.None? ==> forall j :: k <= j < |items| ==> !TitleMatches(items[j].rendered, title)
  {
    if k >= |items| then None
    else if TitleMatches(items[k].rendered, title) then Some(k)
    else FirstMatch(items, title, k + 1)
  }

  // =====================================================================
  // Requests, replies and the site
  // =====================================================================

  datatype Request = Search(title: string) | CreateGem(gem: Gem) | UpdateGem(id: int, gem: Gem)

  /** The reply to a title search: status and decoded results, or an exception. */
  datatype SearchReply = SearchAnswer(status: int, items: seq<SearchItem>) | SearchRaised

  /** The reply to a write: status, the `id` and the `link` of the decoded body (None
      when the body has no such key or is not JSON), and its text, or an exception. */
  datatype WriteReply = WriteAnswer(status: int, id: Option<int>, link: Option<string>, text: string) | WriteRaised

  /** Everything the older engine reads and writes. */
  datatype Site = Site(
    files: map<string, Bytes>,
    systemState: StateFile,
    contentState: map<string, string>,
    contentFile: StateFile,
    changelog: seq<string>,
    errorlog: seq<string>,
    searchReplies: seq<SearchReply>,
    writeReplies: seq<WriteReply>,
    sent: seq<Request>)

  /** `check_code_changes` */
  function CodeCheck(s: Site, digest: Bytes -> string, ts: string): Site {
    var last := LoadContentState(s.systemState);
    var (current, changes) := HashTracked(s.files, last, digest, Tracked);
    if changes == [] then s
    else
      s.(changelog := s.changelog + [LogChange(ts, "CODE UPDATE", "Modified files: " + Join(changes, ", "), "SYSTEM", "N/A")],
         systemState := Stored(current))
  }

  /** One CODE UPDATE entry and a rewritten system state exactly when some tracked
      file changed; otherwise nothing at all changes. */
  lemma CheckCodeChangesRule(s: Site, digest: Bytes -> string, ts: string)
    ensures var last := LoadContentState(s.systemState);
      var s1 := CodeCheck(s, digest, ts);
      && ((exists f :: f in Tracked && Changed(s.files, last, digest, f)) ==>
            && |s1.changelog| == |s.changelog| + 1 && s.changelog <= s1.changelog
            && s1.systemState.Stored?
            && (forall f :: f in s1.systemState.entries <==> f in Tracked && f in s.files))
      && (!(exists f :: f in Tracked && Changed(s.files, last, digest, f)) ==> s1 == s)
      && s1.files == s.files && s1.contentState == s.contentState && s1.errorlog == s.errorlog
  {
    var last := LoadContentState(s.systemState);
    HashTrackedRule(s.files, last, digest, Tracked);
    var (current, changes) := HashTracked(s.files, last, digest, Tracked);
    if exists f :: f in Tracked && Changed(s.files, last, digest, f) {
      var f :| f in Tracked && Changed(s.files, last, digest, f);
      assert f in changes;
    }
    if changes != [] {
      assert changes[0] in changes;
    }
  }

  datatype Lookup = Found(id: Option<int>) | SearchFailed

  /** `find_gem_id`: the explicit id without a request; otherwise one search and
      the id of its first matching result. A search that raises ends the run. */
  function GemLookup(s: Site, g: Gem): (Lookup, Site) {
    if g.id.Some? then (Found(g.id.value), s)
    else
      var s1 := s.(searchReplies := if s.searchReplies == [] then [] else s.searchReplies[1..],
                   sent := s.sent + [Search(g.title)]);
      if s.searchReplies == [] then (SearchFailed, s1)
      else
        match s.searchReplies[0]
        case SearchRaised => (SearchFailed, s1)
        case SearchAnswer(status, items) =>
          if status != 200 then (Found(None), s1)
          else
            match FirstMatch(items, g.title, 0)
            case Some(i) => (Found(Some(items[i].id)), s1)
            case None => (Found(None), s1)
  }

  /** With an `id` key its value is returned outright, even when it is None, and
      nothing is searched. */
  lemma FindGemIdExplicit(s: Site, g: Gem)
    requires g.id.Some?
    ensures GemLookup(s, g) == (Found(g.id.value), s)
  {
  }

  /** Without an explicit id: one search request; on a 200 reply the result is the
      id of the first matching item, or None when no item matches. */
  lemma FindGemIdSearch(s: Site, g: Gem)
    requires g.id.None?
    requires s.searchReplies != [] && s.searchReplies[0].SearchAnswer? && s.searchReplies[0].status == 200
    ensures var (r, s1) := GemLookup(s, g);
      var items := s.searchReplies[0].items;
      && s1.sent == s.sent + [Search(g.title)]
      && r.Found?
      && (r.id.Some? <==> exists i :: 0 <= i < |items| && TitleMatches(items[i].rendered, g.title))
      && (r.id.Some? ==>
            exists i :: 0 <= i < |items| && r.id.value == items[i].id && FirstMatch(items, g.title, 0) == Some(i))
  {
  }

  // =====================================================================
  // The main loop
  // =====================================================================

  predicate TruthyId(id: Option<int>) { id.Some? && id.value != 0 }

  datatype Outcome =
    | Skipped
    | Logged(action: string, id: Option<int>)
    | Failed(status: int)
    | Aborted       // the search or the write raised, or a 200/201 body had no `link`: the run ends

  /** One iteration of lines 149-185. */
  function Step(s: Site, g: Gem, md5: string -> string, ts: string): (Outcome, Site) {
    var (lookup, s1) := GemLookup(s, g);
    if lookup.SearchFailed? then (Aborted, s1)
    else
      var existing := lookup.id;
      var h := ContentHash(md5, g);
      var status := GetOr(g.status, "draft");
      if TruthyId(existing) && IdKey(existing.value) in s1.contentState && s1.contentState[IdKey(existing.value)] == h then
        (Skipped, s1)
      else
        var update := TruthyId(existing);
        var req := if update then UpdateGem(existing.value, g) else CreateGem(g);
        var s2 := s1.(writeReplies := if s1.writeReplies == [] then [] else s1.writeReplies[1..], sent := s1.sent + [req]);
        if s1.writeReplies == [] || s1.writeReplies[0].WriteRaised? then (Aborted, s2)
        else
          var reply := s1.writeReplies[0];
          var gemId := if !update && reply.status == 201 then reply.id else existing;
          var action := if update then "Updated" else "Created";
          if (reply.status == 200 || reply.status == 201) && reply.link.None? then (Aborted, s2)
          else if reply.status == 200 || reply.status == 201 then
            var s3 := s2.(changelog := s2.changelog + [LogChange(ts, action, g.title, IdText(gemId), status)]);
            if TruthyId(gemId) then
              var st := s3.contentState[IdKey(gemId.value) := h];
              (Logged(action, gemId), s3.(contentState := st, contentFile := Stored(st)))
            else (Logged(action, gemId), s3)
          else
            (Failed(reply.status), s2.(errorlog := s2.errorlog + [LogError(ts, g.title, reply.status, reply.text)]))
  }

  /** Skip exactly when the resolved id is truthy and its stored hash is the gem's;
      a skip writes nothing and logs nothing. */
  lemma StepSkipRule(s: Site, g: Gem, md5: string -> string, ts: string)
    ensures var (lookup, s1) := GemLookup(s, g);
      var (o, s2) := Step(s, g, md5, ts);
      && (o == Skipped <==>
            (lookup.Found? && TruthyId(lookup.id) && IdKey(lookup.id.value) in s.contentState
             && s.contentState[IdKey(lookup.id.value)] == ContentHash(md5, g)))
      && (o == Skipped ==> s2 == s1 && s2.contentState == s.contentState && s2.changelog == s.changelog && s2.errorlog == s.errorlog)
  {
  }

  /** Once the gem is resolved and not skipped, the write's reply decides: a raised
      request, or a 200/201 body without `link`, ends the run; a 200/201 with a `link`
      is logged under the resolved id, or under the reply's id for a create answered
      201. On 200/201: one change entry, and the state records the hash under the id
      only when the id is known; a create learns its id only from a 201 reply. */
  lemma StepSuccessRule(s: Site, g: Gem, md5: string -> string, ts: string)
    ensures var (lookup, s1) := GemLookup(s, g);
      var w := s1.writeReplies;
      var (o, s2) := Step(s, g, md5, ts);
      lookup.Found? && o != Skipped ==>
        && (o == Aborted <==>
              w == [] || w[0].WriteRaised? || ((w[0].status == 200 || w[0].status == 201) && w[0].link.None?))
        && (o.Logged? <==>
              w != [] && w[0].WriteAnswer? && (w[0].status == 200 || w[0].status == 201) && w[0].link.Some?)
        && (o.Logged? ==> o.id == (if !TruthyId(lookup.id) && w[0].status == 201 then w[0].id else lookup.id))
    ensures var (o, s2) := Step(s, g, md5, ts);
      o.Logged? ==>
        && |s2.changelog| == |s.changelog| + 1 && s.changelog <= s2.changelog
        && s2.errorlog == s.errorlog
        && s2.contentState == (if TruthyId(o.id) then s.contentState[IdKey(o.id.value) := ContentHash(md5, g)] else s.contentState)
        && (TruthyId(o.id) ==> s2.contentFile == Stored(s2.contentState))
        && (!TruthyId(o.id) ==> s2.contentFile == s.contentFile)
  {
  }

  /** The one change entry of a 200/201 is the `log_change` line of the write: the
      action is "Updated" for a truthy resolved id and "Created" otherwise, with the
      gem's title, the id it ends with and its status (default "draft"). */
  lemma StepSuccessEntry(s: Site, g: Gem, md5: string -> string, ts: string)
    ensures var (o, s2) := Step(s, g, md5, ts);
      o.Logged? ==>
        && o.action == (if TruthyId(GemLookup(s, g).0.id) then "Updated" else "Created")
        && s2.changelog == s.changelog + [LogChange(ts, o.action, g.title, IdText(o.id), GetOr(g.status, "draft"))]
  {
  }

  /** A gem whose `id` key holds None sends no search and is created: the one request
      of its step is the create. */
  lemma StepNoneIdCreates(s: Site, g: Gem, md5: string -> string, ts: string)
    requires g.id == Some(None)
    ensures GemLookup(s, g) == (Found(None), s)
    ensures Step(s, g, md5, ts).1.sent == s.sent + [CreateGem(g)]
  {
  }

  /** A create answered with 200 (not 201) keeps the id it started with, so it stores
      no hash unless that id was already truthy, which a create's is not. */
  lemma StepCreateNeeds201(s: Site, g: Gem, md5: string -> string, ts: string)
    requires GemLookup(s, g).0.Found? && !TruthyId(GemLookup(s, g).0.id)
    requires var s1 := GemLookup(s, g).1;
      s1.writeReplies != [] && s1.writeReplies[0].WriteAnswer? && s1.writeReplies[0].status == 200
      && s1.writeReplies[0].link.Some?
    ensures Step(s, g, md5, ts).1.contentState == s.contentState
    ensures Step(s, g, md5, ts).0.Logged?
  {
  }

  /** A write answered with a status other than 200/201 fails with that status; a
      failed write appends exactly one error entry and changes neither the state nor
      the change log. */
  lemma StepFailureRule(s: Site, g: Gem, md5: string -> string, ts: string)
    ensures var (lookup, s1) := GemLookup(s, g);
      var w := s1.writeReplies;
      var (o, s2) := Step(s, g, md5, ts);
      lookup.Found? && o != Skipped ==>
        (o.Failed? <==> w != [] && w[0].WriteAnswer? && w[0].status != 200 && w[0].status != 201)
        && (o.Failed? ==> o.status == w[0].status)
    ensures var (o, s2) := Step(s, g, md5, ts);
      o.Failed? ==>
        && s2.errorlog == s.errorlog + [LogError(ts, g.title, o.status, GemLookup(s, g).1.writeReplies[0].text)]
        && s2.contentState == s.contentState && s2.contentFile == s.contentFile && s2.changelog == s.changelog
  {
  }

  /** The main loop; record `i` is stamped `clock(i)`. The flag says the run was aborted. */
  function Run(s: Site, gems: seq<Gem>, md5: string -> string, clock: nat -> string): (Site, bool) {
    if gems == [] then (s, false)
    else
      var (s1, aborted) := Run(s, gems[..|gems| - 1], md5, clock);
      if aborted then (s1, true)
      else
        var (o, s2) := Step(s1, gems[|gems| - 1], md5, clock(|gems| - 1));
        (s2, o == Aborted)
  }

  /** The content file agrees with the state in memory, or no file was read and the state is empty. */
  predicate Persisted(s: Site) {
    s.contentFile == Stored(s.contentState) || (s.contentState == map[] && !s.contentFile.Stored?)
  }

  lemma {:induction false} RunKeepsPersisted(s: Site, gems: seq<Gem>, md5: string -> string, clock: nat -> string)
    requires Persisted(s)
    ensures Persisted(Run(s, gems, md5, clock).0)
  {
    if gems != [] {
      RunKeepsPersisted(s, gems[..|gems| - 1], md5, clock);
      var (s1, aborted) := Run(s, gems[..|gems| - 1], md5, clock);
      if !aborted {
        StepKeepsPersisted(s1, gems[|gems| - 1], md5, clock(|gems| - 1));
      }
    }
  }

  /** Each outcome of one step leaves the content file agreeing with memory. */
  lemma StepKeepsPersisted(s: Site, g: Gem, md5: string -> string, ts: string)
    requires Persisted(s)
    ensures Persisted(Step(s, g, md5, ts).1)
  {
    StepSuccessRule(s, g, md5, ts);
    StepSkipRule(s, g, md5, ts);
    StepFailureRule(s, g, md5, ts);
  }

  /** The script: back up, check the code, load the fingerprints, then the loop. */
  function LastGoodRun(s: Site, gems: seq<Gem>, digest: Bytes -> string, md5: string -> string, ts: string, clock: nat -> string)
    : (Site, bool)
  {
    var s1 := s.(files := CopyEach(s.files, BackedUp));
    var s2 := CodeCheck(s1, digest, ts);
    var s3 := s2.(contentState := LoadContentState(s2.contentFile));
    Run(s3, gems, md5, clock)
  }

  /** Whatever the state file held, the run ends with the file agreeing with memory. */
  lemma LastGoodRunPersists(s: Site, gems: seq<Gem>, digest: Bytes -> string, md5: string -> string, ts: string, clock: nat -> string)
    ensures Persisted(LastGoodRun(s, gems, digest, md5, ts, clock).0)
  {
    var s1 := s.(files := CopyEach(s.files, BackedUp));
    var s2 := CodeCheck(s1, digest, ts);
    var s3 := s2.(contentState := LoadContentState(s2.contentFile));
    assert Persisted(s3);
    RunKeepsPersisted(s3, gems, md5, clock);
  }

  // =====================================================================
  // The script's state, updated in place
  // =====================================================================

  class Runner {
    var files: map<string, Bytes>
    var systemState: StateFile
    var contentState: map<string, string>
    var contentFile: StateFile
    var changelog: seq<string>
    var errorlog: seq<string>
    var searchReplies: seq<SearchReply>
    var writeReplies: seq<WriteReply>
    var sent: seq<Request>

    function Snapshot(): Site
      reads this
    {
      Site(files, systemState, contentState, contentFile, changelog, errorlog, searchReplies, writeReplies, sent)
    }

    constructor (s: Site)
      ensures Snapshot() == s
    {
      files, systemState, contentState, contentFile := s.files, s.systemState, s.contentState, s.contentFile;
      changelog, errorlog := s.changelog, s.errorlog;
      searchReplies, writeReplies, sent := s.searchReplies, s.writeReplies, s.sent;
    }

    /** `create_backup` */
    method CreateBackup()
      modifies this
      ensures Snapshot() == old(Snapshot()).(files := CopyEach(old(files), BackedUp))
    {
      var i := 0;
      while i < |BackedUp|
        invariant 0 <= i <= |BackedUp|
        invariant Snapshot() == old(Snapshot()).(files := CopyEach(old(files), BackedUp[..i]))
      {
        assert BackedUp[..i + 1][..i] == BackedUp[..i];
        var filename := BackedUp[i];
        var destination := BackupName(filename);
        if filename in files {
          files := files[destination := files[filename]];
        }
        i := i + 1;
      }
      assert BackedUp[..|BackedUp|] == BackedUp;
    }

    /** `check_code_changes` */
    method CheckCodeChanges(digest: Bytes -> string, ts: string)
      modifies this
      ensures Snapshot() == CodeCheck(old(Snapshot()), digest, ts)
    {
      var lastState := LoadContentState(systemState);
      var currentState := map[];
      var changes := [];
      var i := 0;
      while i < |Tracked|
        invariant 0 <= i <= |Tracked|
        invariant (currentState, changes) == HashTracked(files, lastState, digest, Tracked[..i])
        invariant Snapshot() == old(Snapshot())
      {
        assert Tracked[..i + 1][..i] == Tracked[..i];
        assert Tracked[..i + 1][i] == Tracked[i];
        var filename := Tracked[i];
        if filename in files {
          var fileHash := digest(files[filename]);
          currentState := currentState[filename := fileHash];
          if filename !in lastState || lastState[filename] != fileHash {
            changes := changes + [filename];
          }
        }
        i := i + 1;
      }
      assert Tracked[..|Tracked|] == Tracked;
      if changes != [] {
        var prettyList := Join(changes, ", ");
        changelog := changelog + [LogChange(ts, "CODE UPDATE", "Modified files: " + prettyList, "SYSTEM", "N/A")];
        systemState := Stored(currentState);
      }
    }

    /** `find_gem_id`, scanning the results in order. */
    method FindGemId(g: Gem) returns (r: Lookup)
      modifies this
      ensures (r, Snapshot()) == GemLookup(old(Snapshot()), g)
    {
      if g.id.Some? {
        return Found(g.id.value);
      }
      sent := sent + [Search(g.title)];
      if searchReplies == [] {
        return SearchFailed;
      }
      var response := searchReplies[0];
      searchReplies := searchReplies[1..];
      if response.SearchRaised? {
        return SearchFailed;
      }
      if response.status != 200 {
        return Found(None);
      }
      var results := response.items;
      var k := 0;
      while k < |results|
        invariant 0 <= k <= |results|
        invariant FirstMatch(results, g.title, 0) == FirstMatch(results, g.title, k)
      {
        if TitleMatches(results[k].rendered, g.title) {
          return Found(Some(results[k].id));
        }
        k := k + 1;
      }
      return Found(None);
    }

    /** One record of the main loop. */
    method ProcessGem(g: Gem, md5: string -> string, ts: string) returns (o: Outcome)
      modifies this
      ensures (o, Snapshot()) == Step(old(Snapshot()), g, md5, ts)
    {
      var lookup := FindGemId(g);
      if lookup.SearchFailed? {
        return Aborted;
      }
      var existingId := lookup.id;
      var gemId := existingId;
      var currentHash := ContentHash(md5, g);
      var targetStatus := GetOr(g.status, "draft");
      if TruthyId(existingId) && IdKey(existingId.value) in contentState && contentState[IdKey(existingId.value)] == currentHash {
        return Skipped;
      }
      var update := TruthyId(existingId);
      var action := if update then "Updated" else "Created";
      sent := sent + [if update then UpdateGem(existingId.value, g) else CreateGem(g)];
      if writeReplies == [] {
        return Aborted;
      }
      var response := writeReplies[0];
      writeReplies := writeReplies[1..];
      if response.WriteRaised? {
        return Aborted;
      }
      if !update && response.status == 201 {
        gemId := response.id;
      }
      if (response.status == 200 || response.status == 201) && response.link.None? {
        return Aborted;
      }
      if response.status == 200 || response.status == 201 {
        changelog := changelog + [LogChange(ts, action, g.title, IdText(gemId), targetStatus)];
        if TruthyId(gemId) {
          contentState := contentState[IdKey(gemId.value) := currentHash];
          contentFile := Stored(contentState);
        }
        o := Logged(action, gemId);
      } else {
        errorlog := errorlog + [LogError(ts, g.title, response.status, response.text)];
        o := Failed(response.status);
      }
    }

    /** The main loop; it stops where a search or a write raises. */
    method ProcessAll(gems: seq<Gem>, md5: string -> string, clock: nat -> string) returns (aborted: bool)
      modifies this
      ensures (Snapshot(), aborted) == Run(old(Snapshot()), gems, md5, clock)
    {
      aborted := false;
      var i := 0;
      while i < |gems| && !aborted
        invariant 0 <= i <= |gems|
        invariant (Snapshot(), aborted) == Run(old(Snapshot()), gems[..i], md5, clock)
        invariant aborted ==> Run(old(Snapshot()), gems, md5, clock) == (Snapshot(), true)
      {
        assert gems[..i + 1][..i] == gems[..i];
        var o := ProcessGem(gems[i], md5, clock(i));
        aborted := o == Aborted;
        if aborted { RunStopped(old(Snapshot()), gems, md5, clock, i + 1); }
        i := i + 1;
      }
      assert gems[..|gems|] == gems;
    }
  }

  lemma {:induction false} RunStopped(s: Site, gems: seq<Gem>, md5: string -> string, clock: nat -> string, n: nat)
    requires n <= |gems|
    requires Run(s, gems[..n], md5, clock).1
    ensures Run(s, gems, md5, clock) == Run(s, gems[..n], md5, clock)
    decreases |gems| - n
  {
    if n < |gems| {
      assert gems[..n + 1][..n] == gems[..n];
      RunStopped(s, gems, md5, clock, n + 1);
    } else {
      assert gems[..n] == gems;
    }
  }

  /** The whole script run against a site. */
  method RunLastGood(s: Site, gems: seq<Gem>, digest: Bytes -> string, md5: string -> string, ts: string, clock: nat -> string)
    returns (result: Site, aborted: bool)
    ensures (result, aborted) == LastGoodRun(s, gems, digest, md5, ts, clock)
  {
    var r := new Runner(s);
    r.CreateBackup();
    r.CheckCodeChanges(digest, ts);
    r.contentState := LoadContentState(r.contentFile);
    aborted := r.ProcessAll(gems, md5, clock);
    result := r.Snapshot();
  }
}
