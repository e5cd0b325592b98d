/**
 * The slice of Python's `str` and list behaviour that the news pipeline relies on:
 * whitespace, `strip()`, ASCII `lower()`, `split(sep)` and `sep.join(parts)`,
 * substring tests, the two whitespace-folding `re.sub` calls, list
 * comprehensions with a filter, and the slice `s[:n]`.
 */
module Text {

  /** Python's `str.isspace()` on one character; the same set is matched by `\s` in a `re` pattern over `str`. */
  predicate IsSpace(c: char) {
    ('\t' <= c <= '\r') || ('\U{1C}' <= c <= '\U{1F}') || c == ' ' || c == '\U{85}' || c == '\U{A0}'
    || c == '\U{1680}' || ('\U{2000}' <= c <= '\U{200A}') || c == '\U{2028}' || c == '\U{2029}'
    || c == '\U{202F}' || c == '\U{205F}' || c == '\U{3000}'
  }

  /** Number of whitespace characters `s` starts with. */
  function LeadingSpace(s: string): (k: nat)
    ensures k <= |s|
    ensures forall i :: 0 <= i < k ==> IsSpace(s[i])
    ensures k == |s| || !IsSpace(s[k])
  {
    if s != [] && IsSpace(s[0]) then 1 + LeadingSpace(s[1..]) else 0
  }

  /** Number of whitespace characters `s` ends with. */
  function TrailingSpace(s: string): (k: nat)
    ensures k <= |s|
    ensures forall i :: |s| - k <= i < |s| ==> IsSpace(s[i])
    ensures k == |s| || !IsSpace(s[|s| - k - 1])
  {
    if s != [] && IsSpace(s[|s| - 1]) then 1 + TrailingSpace(s[..|s| - 1]) else 0
  }

  /** No whitespace at either end. */
  predicate Trimmed(s: string) {
    s == [] || (!IsSpace(s[0]) && !IsSpace(s[|s| - 1]))
  }

  /** Python's `s.strip()`: `s` without its leading and trailing whitespace. */
  function Strip(s: string): (r: string)
    ensures |r| <= |s|
    ensures Trimmed(r)
    ensures r == [] <==> forall i :: 0 <= i < |s| ==> IsSpace(s[i])
    ensures Trimmed(s) ==> r == s
  {
    var a := LeadingSpace(s);
    var b := TrailingSpace(s[a..]);
    s[a..|s| - b]
  }

  /** The part of `s` kept by `Strip` is a contiguous piece of it. */
  lemma StripIsInfix(s: string) returns (a: nat)
    ensures a + |Strip(s)| <= |s| && Strip(s) == s[a..a + |Strip(s)|]
  {
    a := LeadingSpace(s);
  }

  /** Stripping brings in no character. */
  lemma StripKeepsOut(s: string, c: char)
    requires c !in s
    ensures c !in Strip(s)
  {
    var a := StripIsInfix(s);
    var r := Strip(s);
    forall t | 0 <= t < |r|
      ensures r[t] != c
    {
      assert r[t] == s[a + t];
    }
  }

  /** ASCII lower-casing of one character. */
  function LowerChar(c: char): char {
    if 'A' <= c <= 'Z' then (c as int + 32) as char else c
  }

  predicate IsUpper(c: char) {
    'A' <= c <= 'Z'
  }

  /** `s.lower()`, restricted to ASCII letters. */
  function Lower(s: string): (r: string)
    ensures |r| == |s|
    ensures forall i :: 0 <= i < |s| ==> !IsUpper(r[i])
    ensures forall i :: 0 <= i < |s| ==> (IsSpace(r[i]) <==> IsSpace(s[i]))
    ensures forall i :: 0 <= i < |s| ==> (r[i] == s[i] || (IsUpper(s[i]) && r[i] as int == s[i] as int + 32))
  {
    seq(|s|, i requires 0 <= i < |s| => LowerChar(s[i]))
  }

  /** Python's `needle in haystack` for two strings. */
  predicate Contains(haystack: string, needle: string) {
    exists i :: 0 <= i <= |haystack| && needle <= haystack[i..]
  }

  /** `needle in haystack` holds exactly when the needle is a contiguous piece of the haystack. */
  lemma ContainsIsInfix(haystack: string, needle: string)
    ensures Contains(haystack, needle) <==>
            exists i, j :: 0 <= i <= j <= |haystack| && haystack[i..j] == needle
  {
    if Contains(haystack, needle) {
      var i :| 0 <= i <= |haystack| && needle <= haystack[i..];
      assert haystack[i..i + |needle|] == needle;
    }
    if exists i, j :: 0 <= i <= j <= |haystack| && haystack[i..j] == needle {
      var i, j :| 0 <= i <= j <= |haystack| && haystack[i..j] == needle;
      assert needle <= haystack[i..];
    }
  }

  /** A needle with an upper-case letter is never found in text without one. */
  lemma ContainsNoUpper(haystack: string, needle: string, j: nat)
    requires forall i :: 0 <= i < |haystack| ==> !IsUpper(haystack[i])
    requires j < |needle| && IsUpper(needle[j])
    ensures !Contains(haystack, needle)
  {
  }

  /** Python's `haystack.split(sep)` for a one-character separator. */
  function Split(s: string, sep: char): (parts: seq<string>)
    ensures |parts| >= 1
    ensures forall p :: p in parts ==> sep !in p
    decreases |s|
  {
    if s == [] then [""]
    else
      var rest := Split(s[1..], sep);
      if s[0] == sep then [""] + rest else [[s[0]] + rest[0]] + rest[1..]
  }

  /** Python's `sep.join(parts)`. */
  function Join(sep: string, parts: seq<string>): string {
    if |parts| == 0 then ""
    else if |parts| == 1 then parts[0]
    else parts[0] + sep + Join(sep, parts[1..])
  }

  lemma JoinConsHead(sep: string, c: char, parts: seq<string>)
    requires |parts| >= 1
    ensures Join(sep, [[c] + parts[0]] + parts[1..]) == [c] + Join(sep, parts)
  {
    var ps := [[c] + parts[0]] + parts[1..];
    if |parts| > 1 {
      assert ps[1..] == parts[1..];
    }
  }

  /** Joining the pieces of a split with the separator gives the input back. */
  lemma {:induction false} JoinSplit(s: string, sep: char)
    ensures Join([sep], Split(s, sep)) == s
    decreases |s|
  {
    if s != [] {
      var rest := Split(s[1..], sep);
      JoinSplit(s[1..], sep);
      if s[0] == sep {
        assert ([""] + rest)[1..] == rest;
      } else {
        JoinConsHead([sep], s[0], rest);
      }
    }
  }

  lemma {:induction false} SplitNoSep(p: string, sep: char)
    requires sep !in p
    ensures Split(p, sep) == [p]
    decreases |p|
  {
    if p != [] {
      SplitNoSep(p[1..], sep);
      assert [p[0]] + p[1..] == p;
    }
  }

  lemma {:induction false} SplitAfterPiece(p: string, sep: char, t: string)
    requires sep !in p
    ensures Split(p + [sep] + t, sep) == [p] + Split(t, sep)
    decreases |p|
  {
    var s := p + [sep] + t;
    if p == [] {
      assert s[1..] == t;
    } else {
      assert s[1..] == p[1..] + [sep] + t;
      SplitAfterPiece(p[1..], sep, t);
      assert [p[0]] + p[1..] == p;
    }
  }

  /** Splitting a join on a separator that no piece contains gives the pieces back. */
  lemma {:induction false} SplitJoin(parts: seq<string>, sep: char)
    requires |parts| >= 1
    requires forall p :: p in parts ==> sep !in p
    ensures Split(Join([sep], parts), sep) == parts
    decreases |parts|
  {
    if |parts| == 1 {
      SplitNoSep(parts[0], sep);
    } else {
      SplitJoin(parts[1..], sep);
      SplitAfterPiece(parts[0], sep, Join([sep], parts[1..]));
      assert [parts[0]] + parts[1..] == parts;
    }
  }

  /**
   * `re.sub(r'\s+', ' ', s)` when `minRun` is 1 and `re.sub(r'\s{2,}', ' ', s)` when it is 2:
   * every maximal whitespace run at least `minRun` long becomes one space.
   */
  function Collapse(s: string, minRun: nat): (r: string)
    ensures r == [] <==> s == []
    ensures r != [] ==> (IsSpace(r[0]) <==> IsSpace(s[0]))
    ensures |r| <= |s|
    decreases |s|
  {
    if s == [] then []
    else if IsSpace(s[0]) then
      var k := LeadingSpace(s);
      (if k >= minRun then " " else s[..k]) + Collapse(s[k..], minRun)
    else [s[0]] + Collapse(s[1..], minRun)
  }

  /** Folding brings in no character except the space: a property of every character and of ' ' holds of the result. */
  lemma {:induction false} CollapseStaysWithin(s: string, minRun: nat, ok: char -> bool)
    requires ok(' ') && forall i :: 0 <= i < |s| ==> ok(s[i])
    ensures forall i :: 0 <= i < |Collapse(s, minRun)| ==> ok(Collapse(s, minRun)[i])
    decreases |s|
  {
    if s != [] {
      if IsSpace(s[0]) {
        var k := LeadingSpace(s);
        var head := if k >= minRun then " " else s[..k];
        var tail := s[k..];
        assert forall i :: 0 <= i < |tail| ==> tail[i] == s[k + i];
        assert forall i :: 0 <= i < |head| ==> ok(head[i]);
        CollapseStaysWithin(tail, minRun, ok);
        assert Collapse(s, minRun) == head + Collapse(tail, minRun);
        AllConcat(head, Collapse(tail, minRun), ok);
      } else {
        var tail := s[1..];
        assert forall i :: 0 <= i < |tail| ==> tail[i] == s[1 + i];
        CollapseStaysWithin(tail, minRun, ok);
        assert Collapse(s, minRun) == [s[0]] + Collapse(tail, minRun);
        AllConcat([s[0]], Collapse(tail, minRun), ok);
      }
    }
  }

  /** A property of every character of two strings holds of every character of their concatenation. */
  lemma {:induction false} AllConcat(a: string, b: string, ok: char -> bool)
    requires forall i :: 0 <= i < |a| ==> ok(a[i])
    requires forall i :: 0 <= i < |b| ==> ok(b[i])
    ensures forall i :: 0 <= i < |a + b| ==> ok((a + b)[i])
  {
    forall i | 0 <= i < |a + b|
      ensures ok((a + b)[i])
    {
      if i >= |a| {
        assert (a + b)[i] == b[i - |a|];
      }
    }
  }

  /** No two whitespace characters side by side. */
  predicate NoSpaceRun(s: string) {
    forall i :: 0 <= i < |s| - 1 ==> !IsSpace(s[i]) || !IsSpace(s[i + 1])
  }

  /** Folded text: no whitespace at the ends and no run of two or more whitespace characters. */
  predicate Folded(s: string) {
    Trimmed(s) && NoSpaceRun(s)
  }

  /** Collapsing runs of one or of two whitespace characters leaves no run behind. */
  lemma {:induction false} CollapseNoRun(s: string, minRun: nat)
    requires 1 <= minRun <= 2
    ensures NoSpaceRun(Collapse(s, minRun))
    decreases |s|
  {
    if s != [] {
      var tail: string;
      var head: string;
      if IsSpace(s[0]) {
        var k := LeadingSpace(s);
        head := if k >= minRun then " " else s[..k];
        tail := Collapse(s[k..], minRun);
        CollapseNoRun(s[k..], minRun);
        assert |head| == 1 && IsSpace(head[0]);
        assert tail != [] ==> !IsSpace(tail[0]);
      } else {
        head := [s[0]];
        tail := Collapse(s[1..], minRun);
        CollapseNoRun(s[1..], minRun);
      }
      var r := head + tail;
      assert Collapse(s, minRun) == r;
      forall i | 0 <= i < |r| - 1
        ensures !IsSpace(r[i]) || !IsSpace(r[i + 1])
      {
        if i >= 1 {
          assert r[i] == tail[i - 1] && r[i + 1] == tail[i];
        }
      }
    }
  }

  /** With runs of length one collapsed, every whitespace character left is a plain space. */
  lemma {:induction false} CollapseOnlySpaces(s: string)
    ensures forall i :: 0 <= i < |Collapse(s, 1)| && IsSpace(Collapse(s, 1)[i]) ==> Collapse(s, 1)[i] == ' '
    decreases |s|
  {
    if s != [] {
      if IsSpace(s[0]) {
        var k := LeadingSpace(s);
        CollapseOnlySpaces(s[k..]);
        assert Collapse(s, 1) == " " + Collapse(s[k..], 1);
      } else {
        CollapseOnlySpaces(s[1..]);
        assert Collapse(s, 1) == [s[0]] + Collapse(s[1..], 1);
      }
    }
  }

  /** The non-whitespace characters of `s`, in order. */
  function Visible(s: string): string {
    if s == [] then [] else (if IsSpace(s[0]) then [] else [s[0]]) + Visible(s[1..])
  }

  lemma {:induction false} VisibleAppend(a: string, b: string)
    ensures Visible(a + b) == Visible(a) + Visible(b)
    decreases |a|
  {
    if a != [] {
      var h := if IsSpace(a[0]) then [] else [a[0]];
      assert (a + b)[0] == a[0] && (a + b)[1..] == a[1..] + b;
      assert Visible(a + b) == h + Visible(a[1..] + b);
      VisibleAppend(a[1..], b);
      assert Visible(a) == h + Visible(a[1..]);
    } else {
      assert a + b == b;
    }
  }

  lemma {:induction false} VisibleOfSpaces(s: string)
    requires forall i :: 0 <= i < |s| ==> IsSpace(s[i])
    ensures Visible(s) == []
    decreases |s|
  {
    if s != [] {
      VisibleOfSpaces(s[1..]);
    }
  }

  /** Folding whitespace changes no visible character and none of their order. */
  lemma {:induction false} CollapseKeepsVisible(s: string, minRun: nat)
    ensures Visible(Collapse(s, minRun)) == Visible(s)
    decreases |s|
  {
    if s != [] {
      if IsSpace(s[0]) {
        var k := LeadingSpace(s);
        var head := if k >= minRun then " " else s[..k];
        CollapseKeepsVisible(s[k..], minRun);
        VisibleAppend(head, Collapse(s[k..], minRun));
        VisibleOfSpaces(head);
        VisibleAppend(s[..k], s[k..]);
        VisibleOfSpaces(s[..k]);
        assert s[..k] + s[k..] == s;
      } else {
        CollapseKeepsVisible(s[1..], minRun);
        VisibleAppend([s[0]], Collapse(s[1..], minRun));
      }
    }
  }

  /** Leading whitespace does not show. */
  lemma DropLeading(s: string, a: nat)
    requires a <= |s| && forall i :: 0 <= i < a ==> IsSpace(s[i])
    ensures Visible(s) == Visible(s[a..])
  {
    assert s == s[..a] + s[a..];
    VisibleAppend(s[..a], s[a..]);
    VisibleOfSpaces(s[..a]);
  }

  /** Trailing whitespace does not show. */
  lemma DropTrailing(s: string, b: nat)
    requires b <= |s| && forall i :: |s| - b <= i < |s| ==> IsSpace(s[i])
    ensures Visible(s) == Visible(s[..|s| - b])
  {
    var tail := s[|s| - b..];
    assert s == s[..|s| - b] + tail;
    VisibleAppend(s[..|s| - b], tail);
    assert forall i :: 0 <= i < |tail| ==> tail[i] == s[|s| - b + i];
    VisibleOfSpaces(tail);
  }

  /** Stripping removes only whitespace. */
  lemma StripKeepsVisible(s: string)
    ensures Visible(Strip(s)) == Visible(s)
  {
    var a := LeadingSpace(s);
    var rest := s[a..];
    var b := TrailingSpace(rest);
    DropLeading(s, a);
    DropTrailing(rest, b);
    assert Strip(s) == rest[..|rest| - b];
  }

  lemma NoSpaceRunInfix(s: string, a: nat, b: nat)
    requires a <= b <= |s| && NoSpaceRun(s)
    ensures NoSpaceRun(s[a..b])
  {
    var t := s[a..b];
    forall i | 0 <= i < |t| - 1
      ensures !IsSpace(t[i]) || !IsSpace(t[i + 1])
    {
      assert t[i] == s[a + i] && t[i + 1] == s[a + i + 1];
    }
  }

  /** Stripping what `Collapse` left (runs of one or two collapsed) yields folded text. */
  lemma StripCollapseFolded(s: string, minRun: nat)
    requires 1 <= minRun <= 2
    ensures Folded(Strip(Collapse(s, minRun)))
  {
    var c := Collapse(s, minRun);
    CollapseNoRun(s, minRun);
    var a := StripIsInfix(c);
    NoSpaceRunInfix(c, a, a + |Strip(c)|);
  }

  // ---------------------------------------------------------------------------------------------
  // Words: Python's `s.split()` with no argument, the maximal runs of non-whitespace characters

  /** Number of non-whitespace characters `s` starts with. */
  function WordLength(s: string): (k: nat)
    ensures k <= |s|
    ensures forall i :: 0 <= i < k ==> !IsSpace(s[i])
    ensures k == |s| || IsSpace(s[k])
  {
    if s != [] && !IsSpace(s[0]) then 1 + WordLength(s[1..]) else 0
  }

  /** `s.split()`: the maximal non-whitespace runs of `s`, in order. */
  function Words(s: string): seq<string>
    decreases |s|
  {
    if s == [] then []
    else if IsSpace(s[0]) then Words(s[LeadingSpace(s)..])
    else
      var k := WordLength(s);
      [s[..k]] + Words(s[k..])
  }

  /** Every word is non-empty and holds no whitespace. */
  lemma {:induction false} WordsShape(s: string)
    ensures forall w :: w in Words(s) ==> w != [] && forall i :: 0 <= i < |w| ==> !IsSpace(w[i])
    decreases |s|
  {
    if s != [] {
      if IsSpace(s[0]) {
        WordsShape(s[LeadingSpace(s)..]);
      } else {
        WordsShape(s[WordLength(s)..]);
      }
    }
  }

  lemma {:induction false} LeadingSpaceAppend(h: string, t: string)
    requires forall i :: 0 <= i < |h| ==> IsSpace(h[i])
    ensures LeadingSpace(h + t) == |h| + LeadingSpace(t)
    decreases |h|
  {
    if h != [] {
      assert (h + t)[1..] == h[1..] + t;
      LeadingSpaceAppend(h[1..], t);
    } else {
      assert h + t == t;
    }
  }

  lemma {:induction false} WordLengthAppend(p: string, u: string)
    requires forall i :: 0 <= i < |p| ==> !IsSpace(p[i])
    requires u == [] || IsSpace(u[0])
    ensures WordLength(p + u) == |p|
    decreases |p|
  {
    if p != [] {
      assert (p + u)[1..] == p[1..] + u;
      WordLengthAppend(p[1..], u);
    } else {
      assert p + u == u;
    }
  }

  /** Leading whitespace never starts a word. */
  lemma {:induction false} WordsSkipSpace(s: string)
    ensures Words(s) == Words(s[LeadingSpace(s)..])
  {
    if s != [] && !IsSpace(s[0]) {
      assert s[0..] == s;
    }
  }

  /** Whitespace in front splits off no word. */
  lemma {:induction false} WordsAfterSpaces(h: string, t: string)
    requires forall i :: 0 <= i < |h| ==> IsSpace(h[i])
    ensures Words(h + t) == Words(t)
  {
    LeadingSpaceAppend(h, t);
    DropAppended(h, t, LeadingSpace(t));
    WordsSameAfterSpace(h + t, t);
  }

  /** Strings that agree once their leading whitespace is dropped have the same words. */
  lemma {:induction false} WordsSameAfterSpace(s: string, t: string)
    requires s[LeadingSpace(s)..] == t[LeadingSpace(t)..]
    ensures Words(s) == Words(t)
  {
    WordsSkipSpace(s);
    WordsSkipSpace(t);
  }

  /** Dropping a prefix longer than `h` from `h + t` drops the rest from `t`. */
  lemma {:induction false} DropAppended(h: string, t: string, l: nat)
    requires l <= |t|
    ensures (h + t)[|h| + l..] == t[l..]
  {
  }

  /** A word followed by whitespace or by nothing is the first word. */
  lemma {:induction false} WordsOfWordThen(p: string, u: string)
    requires p != [] && forall i :: 0 <= i < |p| ==> !IsSpace(p[i])
    requires u == [] || IsSpace(u[0])
    ensures Words(p + u) == [p] + Words(u)
  {
    WordLengthAppend(p, u);
    assert (p + u)[..|p|] == p && (p + u)[|p|..] == u;
  }

  /** Whitespace at the end splits off no word. */
  lemma {:induction false} WordsBeforeSpaces(m: string, h: string)
    requires forall i :: 0 <= i < |h| ==> IsSpace(h[i])
    ensures Words(m + h) == Words(m)
    decreases |m|
  {
    if m == [] {
      assert m + h == h + [];
      WordsAfterSpaces(h, []);
    } else if IsSpace(m[0]) {
      assert m + h == [m[0]] + (m[1..] + h);
      assert m == [m[0]] + m[1..];
      WordsAfterSpaces([m[0]], m[1..] + h);
      WordsAfterSpaces([m[0]], m[1..]);
      WordsBeforeSpaces(m[1..], h);
    } else {
      var w := WordLength(m);
      var rest := m[w..];
      assert m + h == m[..w] + (rest + h);
      assert rest != [] ==> (rest + h)[0] == rest[0];
      assert rest == [] ==> rest + h == h;
      WordsOfWordThen(m[..w], rest + h);
      WordsBeforeSpaces(rest, h);
    }
  }

  lemma WordsDropLeading(s: string, a: nat)
    requires a <= |s| && forall i :: 0 <= i < a ==> IsSpace(s[i])
    ensures Words(s) == Words(s[a..])
  {
    assert s == s[..a] + s[a..];
    WordsAfterSpaces(s[..a], s[a..]);
  }

  lemma WordsDropTrailing(s: string, b: nat)
    requires b <= |s| && forall i :: |s| - b <= i < |s| ==> IsSpace(s[i])
    ensures Words(s) == Words(s[..|s| - b])
  {
    var tail := s[|s| - b..];
    assert s == s[..|s| - b] + tail;
    assert forall i :: 0 <= i < |tail| ==> tail[i] == s[|s| - b + i];
    WordsBeforeSpaces(s[..|s| - b], tail);
  }

  /** Stripping keeps every word. */
  lemma StripKeepsWords(s: string)
    ensures Words(Strip(s)) == Words(s)
  {
    var a := LeadingSpace(s);
    var rest := s[a..];
    var b := TrailingSpace(rest);
    WordsDropLeading(s, a);
    WordsDropTrailing(rest, b);
    assert Strip(s) == rest[..|rest| - b];
  }

  /** `Collapse` leaves a run of non-whitespace characters as it is. */
  lemma {:induction false} CollapseAfterWord(s: string, w: nat, minRun: nat)
    requires w <= |s| && forall i :: 0 <= i < w ==> !IsSpace(s[i])
    ensures Collapse(s, minRun) == s[..w] + Collapse(s[w..], minRun)
    decreases w
  {
    var p, u := s[..w], s[w..];
    assert s == p + u;
    CollapseWordThen(p, u, minRun);
  }

  /** Prefix form of `CollapseAfterWord`, by induction on the word. */
  lemma {:induction false} CollapseWordThen(p: string, u: string, minRun: nat)
    requires forall i :: 0 <= i < |p| ==> !IsSpace(p[i])
    ensures Collapse(p + u, minRun) == p + Collapse(u, minRun)
    decreases |p|
  {
    if p != [] {
      var q := p[1..];
      assert forall i :: 0 <= i < |q| ==> q[i] == p[i + 1];
      CollapseWordThen(q, u, minRun);
      assert (p + u)[0] == p[0];
      assert (p + u)[1..] == q + u;
      CollapseVisibleHead(p + u, minRun);
      assert p == [p[0]] + q;
      calc {
        Collapse(p + u, minRun);
        [p[0]] + Collapse(q + u, minRun);
        [p[0]] + (q + Collapse(u, minRun));
        ([p[0]] + q) + Collapse(u, minRun);
      }
    } else {
      assert p + u == u;
    }
  }

  /** A non-whitespace first character passes through `Collapse` unchanged. */
  lemma {:induction false} CollapseVisibleHead(s: string, minRun: nat)
    requires s != [] && !IsSpace(s[0])
    ensures Collapse(s, minRun) == [s[0]] + Collapse(s[1..], minRun)
  {
  }

  /** Folding whitespace runs keeps every word: a run between two words stays whitespace. */
  lemma {:induction false} CollapseKeepsWords(s: string, minRun: nat)
    ensures Words(Collapse(s, minRun)) == Words(s)
    decreases |s|
  {
    if s != [] {
      if IsSpace(s[0]) {
        var k := LeadingSpace(s);
        var head := if k >= minRun then " " else s[..k];
        CollapseKeepsWords(s[k..], minRun);
        WordsAfterSpaces(head, Collapse(s[k..], minRun));
      } else {
        var w := WordLength(s);
        CollapseAfterWord(s, w, minRun);
        CollapseKeepsWords(s[w..], minRun);
        WordsOfWordThen(s[..w], Collapse(s[w..], minRun));
      }
    }
  }

  /** `sep.join([a] + rest)` for a non-empty `rest`. */
  lemma JoinCons(sep: string, a: string, rest: seq<string>)
    requires rest != []
    ensures Join(sep, [a] + rest) == a + sep + Join(sep, rest)
  {
    assert ([a] + rest)[1..] == rest;
  }

  /** Text with only plain spaces for whitespace. */
  predicate SpacesOnly(s: string) {
    forall i :: 0 <= i < |s| && IsSpace(s[i]) ==> s[i] == ' '
  }

  /** What follows the first word and its single space in folded text is folded text again. */
  lemma FoldedAfterWord(r: string, w: nat)
    requires Folded(r) && SpacesOnly(r) && w == WordLength(r) && w < |r|
    ensures w + 1 < |r| && r[w] == ' ' && !IsSpace(r[w + 1])
    ensures Folded(r[w + 1..]) && SpacesOnly(r[w + 1..])
  {
    assert IsSpace(r[w]);
    var rest := r[w + 1..];
    assert rest[0] == r[w + 1] && rest[|rest| - 1] == r[|r| - 1];
    NoSpaceRunInfix(r, w + 1, |r|);
    assert forall i :: 0 <= i < |rest| ==> rest[i] == r[w + 1 + i];
  }

  /** A word, one space, then text starting with a word: the words are the first word and the rest's. */
  lemma WordsSplitAt(r: string, w: nat)
    requires w == WordLength(r) && 0 < w && w + 1 < |r| && r[w] == ' ' && !IsSpace(r[w + 1])
    ensures Words(r) == [r[..w]] + Words(r[w + 1..])
    ensures Words(r[w + 1..]) != []
  {
    var rest := r[w + 1..];
    assert r[w..] == [' '] + rest;
    WordsAfterSpaces([' '], rest);
  }

  /** A word, one space, then the joined rest: joined, the words give the text back. */
  lemma RejoinAfterWord(r: string, w: nat, ws: seq<string>)
    requires w < |r| && r[w] == ' ' && ws != [] && r[w + 1..] == Join(" ", ws)
    ensures r == Join(" ", [r[..w]] + ws)
  {
    JoinCons(" ", r[..w], ws);
    assert r == r[..w] + " " + r[w + 1..];
  }

  /** Text without whitespace is one word. */
  lemma OneWord(r: string)
    requires r != [] && WordLength(r) == |r|
    ensures Words(r) == [r]
  {
    assert r[..|r|] == r && r[|r|..] == [];
  }

  /**
   * Folded text whose only whitespace is the plain space is its words joined by single spaces:
   * `r == " ".join(r.split())`.
   */
  lemma {:induction false} FoldedIsJoinedWords(r: string)
    requires Folded(r) && SpacesOnly(r)
    ensures r == Join(" ", Words(r))
    decreases |r|
  {
    if r != [] {
      var w := WordLength(r);
      if w == |r| {
        OneWord(r);
      } else {
        FoldedAfterWord(r, w);
        var rest := r[w + 1..];
        FoldedIsJoinedWords(rest);
        WordsSplitAt(r, w);
        RejoinAfterWord(r, w, Words(rest));
      }
    }
  }

  /** The elements of `s` that satisfy `keep`, in order (a list comprehension with an `if`). */
  function Filter<T>(s: seq<T>, keep: T -> bool): (r: seq<T>)
    ensures |r| <= |s|
    ensures forall i :: 0 <= i < |r| ==> keep(r[i])
  {
    if s == [] then [] else Filter(s[..|s| - 1], keep) + (if keep(s[|s| - 1]) then [s[|s| - 1]] else [])
  }

  /** Filtering keeps every occurrence of an element that passes and drops every one that does not. */
  lemma {:induction false} FilterCounts<T>(s: seq<T>, keep: T -> bool, x: T)
    ensures multiset(Filter(s, keep))[x] == if keep(x) then multiset(s)[x] else 0
    decreases |s|
  {
    if s != [] {
      var init := s[..|s| - 1];
      FilterCounts(init, keep, x);
      assert s == init + [s[|s| - 1]];
    }
  }

  /** `xs` can be obtained from `ys` by deleting elements. */
  ghost predicate IsSubsequence<T>(xs: seq<T>, ys: seq<T>)
    decreases |ys|
  {
    if ys == [] then xs == []
    else
      (xs != [] && xs[|xs| - 1] == ys[|ys| - 1] && IsSubsequence(xs[..|xs| - 1], ys[..|ys| - 1]))
      || IsSubsequence(xs, ys[..|ys| - 1])
  }

  /** A filtered list is an order-preserving subsequence of the list it came from. */
  lemma {:induction false} FilterIsSubsequence<T>(s: seq<T>, keep: T -> bool)
    ensures IsSubsequence(Filter(s, keep), s)
    decreases |s|
  {
    if s != [] {
      var init := s[..|s| - 1];
      FilterIsSubsequence(init, keep);
      var r := Filter(s, keep);
      if keep(s[|s| - 1]) {
        assert r == Filter(init, keep) + [s[|s| - 1]];
        assert r[..|r| - 1] == Filter(init, keep);
        assert r[|r| - 1] == s[|s| - 1];
      } else {
        assert r == Filter(init, keep);
      }
    }
  }

  /** A filter keeps only elements of the sequence it filters. */
  lemma {:induction false} FilterKeepsMembers<T>(s: seq<T>, keep: T -> bool, x: T)
    requires x in Filter(s, keep)
    ensures x in s
    decreases |s|
  {
    if s != [] {
      var init := s[..|s| - 1];
      if x in Filter(init, keep) {
        FilterKeepsMembers(init, keep, x);
        var i :| 0 <= i < |init| && init[i] == x;
        assert s[i] == x;
      } else {
        assert x == s[|s| - 1];
      }
    }
  }

  /** A filter that passes every element keeps the whole sequence. */
  lemma {:induction false} FilterAll<T>(s: seq<T>, keep: T -> bool)
    requires forall i :: 0 <= i < |s| ==> keep(s[i])
    ensures Filter(s, keep) == s
    decreases |s|
  {
    if s != [] {
      FilterAll(s[..|s| - 1], keep);
      assert s[..|s| - 1] + [s[|s| - 1]] == s;
    }
  }

  /** Python's slice `s[:n]`, negative `n` counting from the end. */
  function Take<T>(s: seq<T>, n: int): (r: seq<T>)
    ensures r <= s
    ensures 0 <= n ==> |r| == if n < |s| then n else |s|
    ensures n < 0 ==> |r| == if |s| + n < 0 then 0 else |s| + n
  {
    if n >= |s| then s
    else if n >= 0 then s[..n]
    else if |s| + n >= 0 then s[..|s| + n]
    else []
  }
}
