/**
 * The few JavaScript string operations the controllers rely on: truthiness of
 * optional string fields, `split`, `trim`, `filter(Boolean)`, `replace` of a
 * character class with the empty string, and `slice(0, n)`.
 */
module JsStrings {
  import opened Wrappers

  /** JavaScript truthiness of a field that holds a string or is absent: present and non-empty. */
  predicate Truthy(o: Option<string>) {
    o.Some? && o.value != ""
  }

  /** `a || b` on two optional strings. */
  function Or(a: Option<string>, b: Option<string>): Option<string> {
    if Truthy(a) then a else b
  }

  /**
   * The characters `String.prototype.trim` removes: the ECMAScript WhiteSpace
   * (tab, vertical tab, form feed, space, no-break space, byte order mark and
   * the other space separators) and LineTerminator code points.
   */
  predicate IsJsSpace(c: char) {
    c == '\t' || c == '\n' || c == '\U{000B}' || c == '\U{000C}' || c == '\r' || c == ' ' ||
    c == '\U{00A0}' || c == '\U{1680}' || ('\U{2000}' <= c <= '\U{200A}') ||
    c == '\U{2028}' || c == '\U{2029}' || c == '\U{202F}' || c == '\U{205F}' ||
    c == '\U{3000}' || c == '\U{FEFF}'
  }

  // ---------------------------------------------------------------- split

  /** `s.split(sep)` for a one-character separator: always at least one piece, none containing `sep`. */
  function Split(s: string, sep: char): (r: seq<string>)
    ensures |r| >= 1
    ensures forall i :: 0 <= i < |r| ==> sep !in r[i]
  {
    if s == [] then [""]
    else
      var rest := Split(s[1..], sep);
      if s[0] == sep then [""] + rest
      else [[s[0]] + rest[0]] + rest[1..]
  }

  /** `parts.join(sep)` */
  function Join(parts: seq<string>, sep: char): string
    requires |parts| >= 1
  {
    if |parts| == 1 then parts[0] else parts[0] + [sep] + Join(parts[1..], sep)
  }

  /** Joining the pieces again gives back the original string. */
  lemma {:induction false} JoinSplit(s: string, sep: char)
    ensures Join(Split(s, sep), sep) == s
  {
    if s != [] {
      var rest := Split(s[1..], sep);
      JoinSplit(s[1..], sep);
      if s[0] == sep {
        assert Split(s, sep) == [""] + rest;
        assert ([""] + rest)[1..] == rest;
      } else {
        var r := Split(s, sep);
        assert r == [[s[0]] + rest[0]] + rest[1..];
        if |rest| == 1 {
          assert Join(r, sep) == [s[0]] + rest[0];
        } else {
          assert r[1..] == rest[1..];
          assert Join(rest, sep) == rest[0] + [sep] + Join(rest[1..], sep);
          assert Join(r, sep) == [s[0]] + rest[0] + [sep] + Join(rest[1..], sep);
        }
      }
    }
  }

  /** Splitting a join of separator-free pieces gives back the pieces. */
  lemma {:induction false} SplitJoin(parts: seq<string>, sep: char)
    requires |parts| >= 1
    requires forall i :: 0 <= i < |parts| ==> sep !in parts[i]
    ensures Split(Join(parts, sep), sep) == parts
  {
    if |parts| == 1 {
      SplitPiece(parts[0], [], sep);
      assert parts[0] + [] == parts[0];
    } else {
      SplitJoin(parts[1..], sep);
      var tail := Join(parts[1..], sep);
      SplitPiece(parts[0], [sep] + tail, sep);
      assert Join(parts, sep) == parts[0] + ([sep] + tail);
      var r := Split([sep] + tail, sep);
      assert r == [""] + parts[1..] by {
        assert ([sep] + tail)[1..] == tail;
      }
      assert parts[0] + r[0] == parts[0] && r[1..] == parts[1..];
      assert [parts[0]] + parts[1..] == parts;
    }
  }

  /** A separator-free prefix `w` is glued onto the first piece of what follows it. */
  lemma {:induction false} SplitPiece(w: string, rest: string, sep: char)
    requires sep !in w
    ensures var r := Split(rest, sep); Split(w + rest, sep) == [w + r[0]] + r[1..]
  {
    if w == [] {
      var r := Split(rest, sep);
      assert w + rest == rest;
      assert w + r[0] == r[0];
      assert [r[0]] + r[1..] == r;
    } else {
      assert (w + rest)[1..] == w[1..] + rest;
      SplitPiece(w[1..], rest, sep);
      var r := Split(rest, sep);
      var inner := Split(w[1..] + rest, sep);
      assert inner == [w[1..] + r[0]] + r[1..];
      assert [w[0]] + (w[1..] + r[0]) == w + r[0];
    }
  }

  // ---------------------------------------------------------------- trim

  /** Leading whitespace removed: `r` is a suffix of `s` and only whitespace was cut. */
  function TrimStart(s: string): (r: string)
    ensures |r| <= |s| && r == s[|s| - |r|..]
    ensures OnlySpaces(s[..|s| - |r|])
    ensures r != [] ==> !IsJsSpace(r[0])
    ensures forall c :: c in r ==> c in s
  {
    if s != [] && IsJsSpace(s[0]) then TrimStart(s[1..]) else s
  }

  /** Trailing whitespace removed: `r` is a prefix of `s` and only whitespace was cut. */
  function TrimEnd(s: string): (r: string)
    ensures |r| <= |s| && r == s[..|r|]
    ensures OnlySpaces(s[|r|..])
    ensures r != [] ==> !IsJsSpace(r[|r| - 1])
    ensures forall c :: c in r ==> c in s
  {
    if s != [] && IsJsSpace(s[|s| - 1]) then TrimEnd(s[..|s| - 1]) else s
  }

  /**
   * `s.trim()`: the slice of `s` left once whitespace is cut from both ends;
   * together with `Trimmed(r)` this fixes `r` uniquely.
   */
  function Trim(s: string): (r: string)
    ensures r != [] ==> !IsJsSpace(r[0]) && !IsJsSpace(r[|r| - 1])
    ensures Trimmed(r)
    ensures forall c :: c in r ==> c in s
  {
    var t := TrimEnd(s);
    var r := TrimStart(t);
    TrimSlice(s, t, r);
    r
  }

  /**
   * `s.trim()` is the slice of `s` left once whitespace is cut from both ends;
   * with `Trimmed` this fixes the result uniquely.
   */
  lemma TrimIsSlice(s: string)
    ensures exists a, b :: 0 <= a <= b <= |s| && Trim(s) == s[a..b] && OnlySpaces(s[..a]) && OnlySpaces(s[b..])
  {
    TrimSlice(s, TrimEnd(s), Trim(s));
  }

  /** What trimming both ends cut away is whitespace, and what stays is one slice. */
  lemma TrimSlice(s: string, t: string, r: string)
    requires t == TrimEnd(s) && r == TrimStart(t)
    ensures r != [] ==> !IsJsSpace(r[0]) && !IsJsSpace(r[|r| - 1])
    ensures forall c :: c in r ==> c in s
    ensures exists a, b :: 0 <= a <= b <= |s| && r == s[a..b] && OnlySpaces(s[..a]) && OnlySpaces(s[b..])
  {
    var a, b := |t| - |r|, |t|;
    assert r != [] ==> r[|r| - 1] == t[|t| - 1];
    assert t == s[..b];
    assert s[..a] == t[..a];
    assert r == t[a..] == s[a..b];
  }

  /** Every character of `s` is whitespace. */
  predicate OnlySpaces(s: string) {
    forall i :: 0 <= i < |s| ==> IsJsSpace(s[i])
  }

  /** Neither end of `s` is whitespace: what `trim` leaves and leaves alone. */
  predicate Trimmed(s: string) {
    s == [] || (!IsJsSpace(s[0]) && !IsJsSpace(s[|s| - 1]))
  }

  /** Trimming a trimmed string changes nothing. */
  lemma TrimTrimmed(s: string)
    requires Trimmed(s)
    ensures Trim(s) == s
  {
  }

  /** `xs.map((s) => s.trim())` */
  function TrimAll(xs: seq<string>): (r: seq<string>)
    ensures |r| == |xs| && forall i :: 0 <= i < |xs| ==> r[i] == Trim(xs[i])
    ensures forall i :: 0 <= i < |xs| ==> Trimmed(r[i])
  {
    seq(|xs|, i requires 0 <= i < |xs| => Trim(xs[i]))
  }

  /** `xs.filter(Boolean)`: the non-empty strings of `xs`, in order. */
  function NonEmptyOnly(xs: seq<string>): (r: seq<string>)
    ensures forall x :: x in r <==> x in xs && x != ""
    ensures |r| <= |xs|
  {
    if xs == [] then []
    else if xs[0] == "" then NonEmptyOnly(xs[1..])
    else [xs[0]] + NonEmptyOnly(xs[1..])
  }

  /** The filter keeps the list's order: it distributes over concatenation. */
  lemma {:induction false} NonEmptyOnlyAppend(a: seq<string>, b: seq<string>)
    ensures NonEmptyOnly(a + b) == NonEmptyOnly(a) + NonEmptyOnly(b)
    decreases |a|
  {
    if a == [] {
      assert a + b == b;
    } else {
      assert (a + b)[0] == a[0] && (a + b)[1..] == a[1..] + b;
      NonEmptyOnlyAppend(a[1..], b);
    }
  }

  /** One string passes the filter exactly when it is not empty. */
  lemma NonEmptyOnlyOne(x: string)
    ensures NonEmptyOnly([x]) == if x == "" then [] else [x]
  {
    assert [x][1..] == [];
  }

  /** Filtering a list with no empty string keeps it whole. */
  lemma {:induction false} NonEmptyOnlyAll(xs: seq<string>)
    requires forall i :: 0 <= i < |xs| ==> xs[i] != ""
    ensures NonEmptyOnly(xs) == xs
  {
    if xs != [] {
      NonEmptyOnlyAll(xs[1..]);
    }
  }

  // ---------------------------------------------------------------- replace / slice

  /** `s.replace(/[...]/g, '')`: every character of `drop` removed, the rest in order. */
  function RemoveChars(s: string, drop: set<char>): (r: string)
    ensures forall i :: 0 <= i < |r| ==> r[i] in s && r[i] !in drop
    ensures |r| <= |s|
  {
    if s == [] then []
    else if s[0] in drop then RemoveChars(s[1..], drop)
    else [s[0]] + RemoveChars(s[1..], drop)
  }

  /** Removing characters distributes over concatenation. */
  lemma {:induction false} RemoveCharsAppend(a: string, b: string, drop: set<char>)
    ensures RemoveChars(a + b, drop) == RemoveChars(a, drop) + RemoveChars(b, drop)
  {
    if a == [] {
      assert a + b == b;
    } else {
      assert (a + b)[0] == a[0] && (a + b)[1..] == a[1..] + b;
      RemoveCharsAppend(a[1..], b, drop);
    }
  }

  /** A string with none of the dropped characters is left as it is. */
  lemma {:induction false} RemoveCharsNone(s: string, drop: set<char>)
    requires forall i :: 0 <= i < |s| ==> s[i] !in drop
    ensures RemoveChars(s, drop) == s
  {
    if s != [] {
      RemoveCharsNone(s[1..], drop);
    }
  }

  /** `s.slice(0, n)`: the first `n` characters, or all of `s` when it is shorter. */
  function Prefix(s: string, n: nat): (r: string)
    ensures |r| == if |s| < n then |s| else n
    ensures r == s[..|r|]
  {
    if |s| <= n then s else s[..n]
  }
}
