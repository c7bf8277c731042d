/** The string operations of the Rust standard library that the modelled code relies on. */
module Strings {

  /** `parts.join(sep)` */
  function Join(parts: seq<string>, sep: string): string {
    if |parts| == 0 then ""
    else if |parts| == 1 then parts[0]
    else parts[0] + sep + Join(parts[1..], sep)
  }

  /** `s.split(sep)`: the pieces between non-overlapping occurrences, found from the left. */
  function Split(s: string, sep: string): (pieces: seq<string>)
    requires sep != ""
    ensures |pieces| >= 1
    decreases |s|
  {
    if |s| < |sep| then [s]
    else if sep <= s then [""] + Split(s[|sep|..], sep)
    else
      var rest := Split(s[1..], sep);
      [[s[0]] + rest[0]] + rest[1..]
  }

  /** `sep` does not begin inside `part` when `part` is followed by `sep`. */
  ghost predicate Clean(part: string, sep: string) {
    forall k :: 0 <= k < |part| ==> !(sep <= (part + sep)[k..])
  }

  lemma {:induction false} SplitAtSeparator(part: string, sep: string, rest: string)
    requires sep != "" && Clean(part, sep)
    ensures Split(part + sep + rest, sep) == [part] + Split(rest, sep)
    decreases |part|
  {
    var s := part + sep + rest;
    if part == "" {
      assert s == sep + rest;
      assert s[|sep|..] == rest;
    } else {
      assert s == (part + sep) + rest;
      assert (part + sep)[0..] == part + sep;
      assert !(sep <= part + sep);
      assert !(sep <= s);
      var tail := part[1..];
      assert forall k :: 0 <= k < |tail| ==> (tail + sep)[k..] == (part + sep)[k + 1..];
      SplitAtSeparator(tail, sep, rest);
      assert s[1..] == tail + sep + rest;
      assert [s[0]] + tail == part;
    }
  }

  lemma {:induction false} SplitSingle(part: string, sep: string)
    requires sep != "" && Clean(part, sep)
    ensures Split(part, sep) == [part]
    decreases |part|
  {
    if |part| < |sep| {
    } else {
      assert (part + sep)[0..] == part + sep;
      assert !(sep <= part);
      var tail := part[1..];
      assert forall k :: 0 <= k < |tail| ==> (tail + sep)[k..] == (part + sep)[k + 1..];
      SplitSingle(tail, sep);
      assert [part[0]] + tail == part;
    }
  }

  /** Splitting undoes joining, for parts that do not contain the separator. */
  lemma {:induction false} SplitJoin(parts: seq<string>, sep: string)
    requires sep != "" && parts != []
    requires forall p :: p in parts ==> Clean(p, sep)
    ensures Split(Join(parts, sep), sep) == parts
  {
    assert parts[0] in parts;
    if |parts| == 1 {
      SplitSingle(parts[0], sep);
    } else {
      SplitJoin(parts[1..], sep);
      SplitAtSeparator(parts[0], sep, Join(parts[1..], sep));
    }
  }

  /** Every piece of a split is free of a one-character separator. */
  lemma {:induction false} SplitPiecesFree(s: string, c: char)
    ensures forall p :: p in Split(s, [c]) ==> c !in p
    decreases |s|
  {
    if |s| == 0 {
    } else {
      if [c] <= s {
        SplitPiecesFree(s[1..], c);
      } else {
        assert s[0] != c;
        SplitPiecesFree(s[1..], c);
      }
    }
  }

  lemma FreeIsClean(part: string, c: char)
    requires c !in part
    ensures Clean(part, [c])
  {
    forall k | 0 <= k < |part| ensures !([c] <= (part + [c])[k..]) {
      assert (part + [c])[k..][0] == part[k];
    }
  }

  /** `char::is_whitespace`: the Unicode White_Space property. */
  predicate IsWhitespace(c: char) {
    || '\t' <= c <= '\r'
    || c in " \U{0085}\U{00A0}\U{1680}\U{2028}\U{2029}\U{202F}\U{205F}\U{3000}"
    || '\U{2000}' <= c <= '\U{200A}'
  }

  function TrimStart(s: string): string {
    if s != "" && IsWhitespace(s[0]) then TrimStart(s[1..]) else s
  }

  function TrimEnd(s: string): string {
    if s != "" && IsWhitespace(s[|s| - 1]) then TrimEnd(s[..|s| - 1]) else s
  }

  /** `s.trim()` */
  function Trim(s: string): string {
    TrimEnd(TrimStart(s))
  }

  /** No whitespace at either end. */
  predicate Trimmed(s: string) {
    s == "" || (!IsWhitespace(s[0]) && !IsWhitespace(s[|s| - 1]))
  }

  lemma {:induction false} TrimEndResult(s: string)
    ensures TrimEnd(s) <= s
    ensures TrimEnd(s) != "" ==> !IsWhitespace(TrimEnd(s)[|TrimEnd(s)| - 1])
    ensures s != "" && !IsWhitespace(s[0]) ==> TrimEnd(s) != ""
  {
    if s == "" || !IsWhitespace(s[|s| - 1]) {
    } else {
      TrimEndResult(s[..|s| - 1]);
    }
  }

  lemma {:induction false} TrimStartResult(s: string)
    ensures TrimStart(s) != "" ==> !IsWhitespace(TrimStart(s)[0])
    ensures forall c :: c in TrimStart(s) ==> c in s
  {
    if s == "" || !IsWhitespace(s[0]) {
    } else {
      TrimStartResult(s[1..]);
    }
  }

  /** Trimming removes all outer whitespace, adds no character, and leaves a trimmed string alone. */
  lemma TrimResult(s: string)
    ensures Trimmed(Trim(s))
    ensures forall c :: c in Trim(s) ==> c in s
    ensures Trimmed(s) ==> Trim(s) == s
  {
    TrimStartResult(s);
    TrimEndResult(TrimStart(s));
    var t := TrimStart(s);
    if Trim(s) != "" {
      assert Trim(s)[0] == t[0];
    }
    forall c | c in Trim(s) ensures c in t {
      var i :| 0 <= i < |Trim(s)| && Trim(s)[i] == c;
      assert t[i] == c;
    }
  }

  /** `str::cmp`, the lexicographic order of code points. */
  predicate StrLeq(a: string, b: string) {
    if a == "" then true
    else if b == "" then false
    else if a[0] == b[0] then StrLeq(a[1..], b[1..])
    else a[0] < b[0]
  }

  /** `a` is cut off from `b`, or smaller at the first place where they differ. */
  ghost predicate Precedes(a: string, b: string) {
    a <= b || exists k :: SmallerAt(a, b, k)
  }

  ghost predicate SmallerAt(a: string, b: string, k: int) {
    0 <= k < |a| && k < |b| && a[..k] == b[..k] && (a[k] as int) < (b[k] as int)
  }

  lemma {:induction false} StrLeqExact(a: string, b: string)
    ensures StrLeq(a, b) <==> Precedes(a, b)
  {
    if a == "" {
    } else if b == "" {
      assert !(a <= b);
    } else if a[0] == b[0] {
      StrLeqExact(a[1..], b[1..]);
      assert a == [a[0]] + a[1..] && b == [b[0]] + b[1..];
      assert a <= b <==> a[1..] <= b[1..];
      forall k ensures SmallerAt(a, b, k) <==> SmallerAt(a[1..], b[1..], k - 1) {
        if 0 < k < |a| && k < |b| {
          assert a[..k] == [a[0]] + a[1..][..k - 1] && b[..k] == [b[0]] + b[1..][..k - 1];
        }
      }
      if k :| SmallerAt(a[1..], b[1..], k) {
        assert SmallerAt(a, b, k + 1);
      }
    } else {
      assert !(a <= b);
      if a[0] < b[0] {
        assert SmallerAt(a, b, 0);
      }
      if k :| SmallerAt(a, b, k) {
        assert k > 0 ==> a[..k][0] == b[..k][0];
      }
    }
  }

  lemma {:induction false} StrLeqTotal(a: string, b: string)
    ensures StrLeq(a, b) || StrLeq(b, a)
    ensures StrLeq(a, b) && StrLeq(b, a) ==> a == b
    ensures StrLeq(a, a)
  {
    if a == "" {
    } else {
      StrLeqTotal(a[1..], a[1..]);
    }
    if a != "" && b != "" && a[0] == b[0] {
      StrLeqTotal(a[1..], b[1..]);
      assert a == [a[0]] + a[1..] && b == [b[0]] + b[1..];
    }
  }

  lemma {:induction false} StrLeqTransitive(a: string, b: string, c: string)
    requires StrLeq(a, b) && StrLeq(b, c)
    ensures StrLeq(a, c)
  {
    if a != "" && b != "" && c != "" && a[0] == b[0] == c[0] {
      StrLeqTransitive(a[1..], b[1..], c[1..]);
    }
  }

  ghost predicate Blank(s: string) {
    forall i :: 0 <= i < |s| ==> IsWhitespace(s[i])
  }

  lemma {:induction false} TrimStartBlank(s: string)
    ensures TrimStart(s) == "" <==> Blank(s)
  {
    if s == "" {
    } else if IsWhitespace(s[0]) {
      TrimStartBlank(s[1..]);
      assert Blank(s) <==> Blank(s[1..]) by {
        assert forall i :: 0 < i < |s| ==> s[i] == s[1..][i - 1];
      }
    }
  }

  /** Nothing is left exactly of text that has nothing but whitespace. */
  lemma TrimBlank(s: string)
    ensures Trim(s) == "" <==> Blank(s)
  {
    TrimStartBlank(s);
    TrimStartResult(s);
    TrimEndResult(TrimStart(s));
  }

  lemma {:induction false} TrimEndPadded(s: string, after: string)
    requires Trimmed(s) && Blank(after)
    ensures TrimEnd(s + after) == s
  {
    if after == "" {
      assert s + after == s;
    } else {
      var padded := s + after;
      assert padded[..|padded| - 1] == s + after[..|after| - 1];
      TrimEndPadded(s, after[..|after| - 1]);
    }
  }

  /** Whitespace around trimmed text goes, and nothing else. */
  lemma {:induction false} TrimPadded(before: string, s: string, after: string)
    requires Trimmed(s) && s != "" && Blank(before) && Blank(after)
    ensures Trim(before + s + after) == s
  {
    if before == "" {
      assert before + s + after == s + after && (s + after)[0] == s[0];
      TrimEndPadded(s, after);
    } else {
      assert (before + s + after)[1..] == before[1..] + s + after;
      TrimPadded(before[1..], s, after);
    }
  }

  /** What trimming takes away is whitespace. */
  lemma TrimSplits(s: string) returns (before: string, after: string)
    ensures Blank(before) && Blank(after) && s == before + Trim(s) + after
  {
    before := TrimStartSplits(s);
    after := TrimEndSplits(TrimStart(s));
    assert s == before + (Trim(s) + after);
  }

  lemma {:induction false} TrimStartSplits(s: string) returns (before: string)
    ensures Blank(before) && s == before + TrimStart(s)
  {
    if s == "" || !IsWhitespace(s[0]) {
      before := "";
    } else {
      before := TrimStartSplits(s[1..]);
      assert s == [s[0]] + s[1..];
      before := [s[0]] + before;
    }
  }

  lemma {:induction false} TrimEndSplits(s: string) returns (after: string)
    ensures Blank(after) && s == TrimEnd(s) + after
  {
    if s == "" || !IsWhitespace(s[|s| - 1]) {
      after := "";
    } else {
      after := TrimEndSplits(s[..|s| - 1]);
      assert s == s[..|s| - 1] + [s[|s| - 1]];
      after := after + [s[|s| - 1]];
    }
  }
}
