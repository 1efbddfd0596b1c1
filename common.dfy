/** Shared vocabulary: an optional value, the character classes that the
    Python regular expressions and string methods of the repository rely on,
    and the string operations (`lower`, `upper`, `strip`, `split`, `join`,
    `replace`, `find`, `str(int)`) written out over `seq<char>`. */
module Common {

  datatype Option<T> = None | Some(value: T)

  /** Python truthiness of an optional string: present and non-empty. */
  predicate Truthy(o: Option<string>) {
    o.Some? && o.value != ""
  }

  /** The fingerprint file `.content_state.json` on disk: absent, holding a JSON
      object of id to fingerprint, or holding text `json.load` cannot parse. */
  datatype StateFile = Missing | Stored(entries: map<string, string>) | Unreadable

  function GetOr<T>(o: Option<T>, default: T): T {
    match o
    case Some(v) => v
    case None => default
  }

  // ---------------------------------------------------------------------
  // Character classes (ASCII)
  // ---------------------------------------------------------------------

  /** The ASCII characters that `str.isspace()` accepts, so those that a `\s` of a
      str pattern matches and `str.strip()` and `str.split()` treat as white space:
      tab, line feed, vertical tab, form feed, carriage return, the four separators
      0x1C to 0x1F, and space. */
  predicate IsSpace(c: char) {
    c == ' ' || c == '\t' || c == '\n' || c == '\r' || c == '\U{0B}' || c == '\U{0C}'
    || ('\U{1C}' <= c <= '\U{1F}')
  }

  predicate IsDigit(c: char) { '0' <= c <= '9' }

  predicate IsUpper(c: char) { 'A' <= c <= 'Z' }

  predicate IsLowerLetter(c: char) { 'a' <= c <= 'z' }

  /** `[a-z0-9]` */
  predicate IsKeyChar(c: char) { IsLowerLetter(c) || IsDigit(c) }

  /** `\w`: letters, digits and underscore. */
  predicate IsWordChar(c: char) { IsLowerLetter(c) || IsUpper(c) || IsDigit(c) || c == '_' }

  function LowerChar(c: char): (r: char)
    ensures !IsUpper(r)
    ensures !IsUpper(c) ==> r == c
  {
    if IsUpper(c) then (c as int + 32) as char else c
  }

  function UpperChar(c: char): (r: char)
    ensures !IsLowerLetter(r)
    ensures !IsLowerLetter(c) ==> r == c
  {
    if IsLowerLetter(c) then (c as int - 32) as char else c
  }

  /** `str.lower()` restricted to the ASCII case mapping. */
  function Lower(s: string): (r: string)
    ensures |r| == |s|
    ensures forall i :: 0 <= i < |s| ==> r[i] == LowerChar(s[i])
  {
    seq(|s|, i requires 0 <= i < |s| => LowerChar(s[i]))
  }

  /** `str.upper()` restricted to the ASCII case mapping. */
  function Upper(s: string): (r: string)
    ensures |r| == |s|
    ensures forall i :: 0 <= i < |s| ==> r[i] == UpperChar(s[i])
  {
    seq(|s|, i requires 0 <= i < |s| => UpperChar(s[i]))
  }

  // ---------------------------------------------------------------------
  // Whitespace
  // ---------------------------------------------------------------------

  predicate AllSpace(s: string) {
    forall i :: 0 <= i < |s| ==> IsSpace(s[i])
  }

  /** Length of the longest all-whitespace prefix of `s`. */
  function SpaceRun(s: string): (n: nat)
    ensures n <= |s|
    ensures AllSpace(s[..n])
    ensures n < |s| ==> !IsSpace(s[n])
  {
    if s == [] || !IsSpace(s[0]) then 0
    else
      var n := 1 + SpaceRun(s[1..]);
      assert s[..n] == [s[0]] + s[1..][..n - 1];
      n
  }

  function LStrip(s: string): (r: string)
    ensures r == s[SpaceRun(s)..]
  {
    s[SpaceRun(s)..]
  }

  function RStrip(s: string): (r: string)
    ensures |r| <= |s| && r == s[..|r|]
    ensures r == [] || !IsSpace(r[|r| - 1])
    ensures AllSpace(s[|r|..])
  {
    if s == [] || !IsSpace(s[|s| - 1]) then s
    else
      var r := RStrip(s[..|s| - 1]);
      assert s[|r|..] == s[..|s| - 1][|r|..] + [s[|s| - 1]];
      r
  }

  /** `str.strip()` */
  function Strip(s: string): (r: string)
    ensures r == [] || (!IsSpace(r[0]) && !IsSpace(r[|r| - 1]))
    ensures r == [] <==> AllSpace(s)
    ensures r != [] ==> r[0] == s[SpaceRun(s)]
  {
    var l := LStrip(s);
    var r := RStrip(l);
    assert r != [] ==> r[0] == l[0];
    assert AllSpace(s) ==> l == [];
    assert r == [] ==> AllSpace(s) by {
      if r == [] {
        assert AllSpace(l[0..]);
        assert l == [];
        assert s[..SpaceRun(s)] == s;
      }
    }
    r
  }

  // ---------------------------------------------------------------------
  // Joining, splitting, searching, replacing
  // ---------------------------------------------------------------------

  /** `sep.join(parts)` */
  function Join(parts: seq<string>, sep: string): string
  {
    if parts == [] then ""
    else if |parts| == 1 then parts[0]
    else parts[0] + sep + Join(parts[1..], sep)
  }

  lemma {:induction false} JoinAppend(parts: seq<string>, last: string, sep: string)
    requires parts != []
    ensures Join(parts + [last], sep) == Join(parts, sep) + sep + last
  {
    if |parts| == 1 {
      assert parts + [last] == [parts[0], last];
    } else {
      assert (parts + [last])[1..] == parts[1..] + [last];
      JoinAppend(parts[1..], last, sep);
    }
  }

  /** `s.startswith(t)` is `t <= s`; this is `s.endswith(t)`. */
  predicate EndsWith(s: string, t: string) {
    |t| <= |s| && s[|s| - |t|..] == t
  }

  lemma EndsWithConcat(a: string, b: string)
    ensures EndsWith(a + b, b) && a <= a + b
  {
    assert (a + b)[|a + b| - |b|..] == b;
  }

  /** A join of two or more parts starts with the first part and a separator,
      and ends with a separator and the last part. */
  lemma JoinEnds(parts: seq<string>, sep: string)
    requires |parts| >= 2
    ensures parts[0] + sep <= Join(parts, sep)
    ensures EndsWith(Join(parts, sep), sep + parts[|parts| - 1])
  {
    var inner := parts[..|parts| - 1];
    assert parts == inner + [parts[|parts| - 1]];
    JoinAppend(inner, parts[|parts| - 1], sep);
    EndsWithConcat(Join(inner, sep), sep + parts[|parts| - 1]);
    EndsWithConcat(parts[0] + sep, Join(parts[1..], sep));
  }

  /** Does `pat` occur in `s` at position `i`? */
  predicate OccursAt(s: string, pat: string, i: int) {
    0 <= i && i + |pat| <= |s| && s[i..i + |pat|] == pat
  }

  /** `pat in s` */
  predicate Contains(s: string, pat: string) {
    exists i :: 0 <= i <= |s| && OccursAt(s, pat, i)
  }

  /** `s.find(pat, from)`, the first occurrence at or after `from`. */
  function FindFrom(s: string, pat: string, from: nat): (r: Option<nat>)
    requires |pat| > 0
    decreases |s| - from
    ensures r.Some? ==> from <= r.value && OccursAt(s, pat, r.value)
    ensures r.Some? ==> forall j :: from <= j < r.value ==> !OccursAt(s, pat, j)
    ensures r.None? ==> forall j :: from <= j ==> !OccursAt(s, pat, j)
  {
    if from + |pat| > |s| then None
    else if s[from..from + |pat|] == pat then Some(from)
    else FindFrom(s, pat, from + 1)
  }

  /** `s.split(sep)` for a one-character separator. */
  function Split(s: string, sep: char): (r: seq<string>)
    ensures |r| >= 1
    ensures forall k :: 0 <= k < |r| ==> sep !in r[k]
    ensures Join(r, [sep]) == s
  {
    if s == [] then [""]
    else
      var rest := Split(s[1..], sep);
      if s[0] == sep then
        assert s == [sep] + s[1..];
        [""] + rest
      else
        var r := [[s[0]] + rest[0]] + rest[1..];
        assert Join(r, [sep]) == [s[0]] + Join(rest, [sep]) by {
          if |rest| > 1 {
            assert r[1..] == rest[1..];
          }
        }
        assert s == [s[0]] + s[1..];
        r
  }

  /** `s.replace(pat, rep)`: every non-overlapping occurrence, left to right. */
  function ReplaceAll(s: string, pat: string, rep: string): (r: string)
    requires |pat| > 0
    decreases |s|
  {
    if |s| < |pat| then s
    else if s[..|pat|] == pat then rep + ReplaceAll(s[|pat|..], pat, rep)
    else [s[0]] + ReplaceAll(s[1..], pat, rep)
  }

  /** Replacing a pattern that does not occur changes nothing. */
  lemma {:induction false} ReplaceAbsent(s: string, pat: string, rep: string)
    requires |pat| > 0
    requires !Contains(s, pat)
    ensures ReplaceAll(s, pat, rep) == s
  {
    if |s| >= |pat| {
      assert !OccursAt(s, pat, 0);
      forall i | OccursAt(s[1..], pat, i) ensures false {
        assert s[1..][i..i + |pat|] == s[i + 1..i + 1 + |pat|];
        assert OccursAt(s, pat, i + 1);
      }
      ReplaceAbsent(s[1..], pat, rep);
    }
  }

  /** Replacing one character by another maps the string pointwise. */
  lemma {:induction false} ReplaceCharPointwise(s: string, c: char, d: char)
    ensures |ReplaceAll(s, [c], [d])| == |s|
    ensures forall i :: 0 <= i < |s| ==> ReplaceAll(s, [c], [d])[i] == (if s[i] == c then d else s[i])
  {
    if |s| >= 1 {
      ReplaceCharPointwise(s[1..], c, d);
      var r := ReplaceAll(s, [c], [d]);
      var rest := ReplaceAll(s[1..], [c], [d]);
      assert r == (if s[0] == c then [d] else [s[0]]) + rest;
    }
  }

  /** Deleting a character leaves only the other characters of the string. */
  lemma {:induction false} DeleteCharFacts(s: string, c: char)
    ensures forall i :: 0 <= i < |ReplaceAll(s, [c], "")| ==>
      ReplaceAll(s, [c], "")[i] != c && ReplaceAll(s, [c], "")[i] in s
  {
    if |s| >= 1 {
      DeleteCharFacts(s[1..], c);
      var rest := ReplaceAll(s[1..], [c], "");
      assert forall i :: 0 <= i < |rest| ==> rest[i] in s;
      if s[..1] == [c] {
        assert ReplaceAll(s, [c], "") == rest;
      } else {
        assert ReplaceAll(s, [c], "") == [s[0]] + rest;
      }
    }
  }

  lemma AppendAssoc(a: string, b: string, c: string)
    ensures (a + b) + c == a + (b + c)
  {
  }

  lemma SliceOfSlice(s: string, a: nat, b: nat, i: nat, j: nat)
    requires a <= b <= |s| && i <= j <= b - a
    ensures s[a..b][i..j] == s[a + i..a + j]
  {
    forall t | 0 <= t < j - i ensures s[a..b][i..j][t] == s[a + i..a + j][t] {
      assert s[a..b][i..j][t] == s[a..b][i + t];
    }
  }

  /** Replacing a one-character pattern distributes over concatenation. */
  lemma {:induction false} ReplaceCharConcat(a: string, b: string, c: char, rep: string)
    ensures ReplaceAll(a + b, [c], rep) == ReplaceAll(a, [c], rep) + ReplaceAll(b, [c], rep)
  {
    if a == [] {
      assert a + b == b;
    } else {
      assert (a + b)[0] == a[0];
      assert (a + b)[1..] == a[1..] + b;
      assert (a + b)[..1] == a[..1];
      ReplaceCharConcat(a[1..], b, c, rep);
    }
  }

  /** Replacing a one-character pattern keeps a first and a last character that are not the pattern. */
  lemma ReplaceCharKeepsEnds(s: string, c: char, rep: string)
    requires s != [] && s[0] != c && s[|s| - 1] != c
    ensures var r := ReplaceAll(s, [c], rep); r != [] && r[0] == s[0] && r[|r| - 1] == s[|s| - 1]
  {
    var init, last := s[..|s| - 1], s[|s| - 1];
    assert s == init + [last];
    ReplaceCharConcat(init, [last], c, rep);
    assert [last][..1] == [last];
    assert ReplaceAll([last], [c], rep) == [last] + ReplaceAll([], [c], rep);
    assert s[..1] == [s[0]];
  }

  // ---------------------------------------------------------------------
  // HTML character references
  // ---------------------------------------------------------------------

  /** Named character references that `Unescape` decodes. */
  function NamedEntity(name: string): Option<char> {
    if name == "amp" then Some('&')
    else if name == "lt" then Some('<')
    else if name == "gt" then Some('>')
    else if name == "quot" then Some('"')
    else if name == "apos" then Some('\'')
    else if name == "nbsp" then Some('\U{A0}')
    else if name == "lsquo" then Some('\U{2018}')
    else if name == "rsquo" then Some('\U{2019}')
    else if name == "ldquo" then Some('\U{201C}')
    else if name == "rdquo" then Some('\U{201D}')
    else if name == "ndash" then Some('\U{2013}')
    else if name == "mdash" then Some('\U{2014}')
    else if name == "hellip" then Some('\U{2026}')
    else None
  }

  function DigitRun(s: string): (n: nat)
    ensures n <= |s|
    ensures forall i :: 0 <= i < n ==> IsDigit(s[i])
  {
    if s == [] || !IsDigit(s[0]) then 0 else 1 + DigitRun(s[1..])
  }

  function DecimalValue(d: string): nat
    requires forall i :: 0 <= i < |d| ==> IsDigit(d[i])
  {
    if d == [] then 0
    else
      var c := d[|d| - 1];
      assert IsDigit(c);
      10 * DecimalValue(d[..|d| - 1]) + (c as int - '0' as int)
  }

  /** The character reference at the start of `s` (which begins with '&'), as
      the decoded character and the length of the reference. */
  function CharRef(s: string): (r: Option<(char, nat)>)
    requires s != [] && s[0] == '&'
    ensures r.Some? ==> 2 <= r.value.1 <= |s|
  {
    if |s| >= 2 && s[1] == '#' then
      var n := DigitRun(s[2..]);
      if n == 0 || 2 + n >= |s| || s[2 + n] != ';' then None
      else
        var v := DecimalValue(s[2..2 + n]);
        if (32 <= v <= 126) || (160 <= v < 0xD800) then Some((v as char, 3 + n)) else None
    else
      var semi := FindFrom(s, ";", 1);
      if semi.None? then None
      else
        match NamedEntity(s[1..semi.value])
        case Some(c) => Some((c, semi.value + 1))
        case None => None
  }

  /** `html.unescape`, on the references `CharRef` knows; every other '&' is kept. */
  function Unescape(s: string): string
    decreases |s|
  {
    if s == [] then []
    else if s[0] != '&' then [s[0]] + Unescape(s[1..])
    else
      match CharRef(s)
      case Some(ref) => [ref.0] + Unescape(s[ref.1..])
      case None => ['&'] + Unescape(s[1..])
  }

  lemma {:induction false} UnescapePlain(s: string)
    requires '&' !in s
    ensures Unescape(s) == s
  {
    if s != [] {
      assert s == [s[0]] + s[1..];
      UnescapePlain(s[1..]);
    }
  }

  // ---------------------------------------------------------------------
  // Numbers as text
  // ---------------------------------------------------------------------

  function DigitChar(d: nat): (c: char)
    requires d < 10
    ensures IsDigit(c)
  {
    ('0' as int + d) as char
  }

  /** `str(n)` for a natural number. */
  function NatToString(n: nat): (r: string)
    ensures |r| >= 1
    ensures forall i :: 0 <= i < |r| ==> IsDigit(r[i])
    decreases n
  {
    if n < 10 then [DigitChar(n)] else NatToString(n / 10) + [DigitChar(n % 10)]
  }

  /** `str(i)` for an integer. */
  function IntToString(i: int): string {
    if i < 0 then "-" + NatToString(-i) else NatToString(i)
  }

  /** `f"{n:02d}"` */
  function Pad2(n: nat): (r: string)
    ensures |r| >= 2
  {
    var s := NatToString(n);
    if |s| < 2 then "0" + s else s
  }

  function CountChar(s: string, c: char): nat {
    if s == [] then 0 else (if s[0] == c then 1 else 0) + CountChar(s[1..], c)
  }

  lemma {:induction false} CountCharAppend(a: string, b: string, c: char)
    ensures CountChar(a + b, c) == CountChar(a, c) + CountChar(b, c)
  {
    if a != [] {
      assert (a + b)[0] == a[0];
      assert (a + b)[1..] == a[1..] + b;
      CountCharAppend(a[1..], b, c);
    } else {
      assert a + b == b;
    }
  }

  lemma {:induction false} CountCharAbsent(s: string, c: char)
    requires c !in s
    ensures CountChar(s, c) == 0
  {
    if s != [] { CountCharAbsent(s[1..], c); }
  }
}
