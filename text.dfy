/**
 * The JavaScript string operations the board relies on: `trim`, `toLowerCase`,
 * `includes`, `split(',')` and `join`.
 */
module Text {

  /** The characters `String.prototype.trim` removes (white space and line terminators). */
  predicate IsWhitespace(c: char)
  {
    || c == ' ' || c == '\t' || c == '\n' || c == '\r' || c == '\U{000B}' || c == '\U{000C}'
    || c == '\U{00A0}' || c == '\U{1680}' || ('\U{2000}' <= c <= '\U{200A}')
    || c == '\U{2028}' || c == '\U{2029}' || c == '\U{202F}' || c == '\U{205F}'
    || c == '\U{3000}' || c == '\U{FEFF}'
  }

  predicate AllWhitespace(s: string)
  {
    forall i :: 0 <= i < |s| ==> IsWhitespace(s[i])
  }

  /** Neither end of `s` is white space. */
  predicate Trimmed(s: string)
  {
    s == [] || (!IsWhitespace(s[0]) && !IsWhitespace(s[|s| - 1]))
  }

  /** Drops the leading white space. */
  function TrimStart(s: string): (r: string)
    ensures |r| <= |s|
  {
    if s != [] && IsWhitespace(s[0]) then TrimStart(s[1..]) else s
  }

  /** What `TrimStart` removes is white space, and what it keeps is a suffix that starts with none. */
  lemma {:induction false} TrimStartFacts(s: string)
    ensures var r := TrimStart(s);
      && r == s[|s| - |r|..]
      && AllWhitespace(s[..|s| - |r|])
      && (r == [] || !IsWhitespace(r[0]))
  {
    if s != [] && IsWhitespace(s[0]) {
      TrimStartFacts(s[1..]);
      var r := TrimStart(s);
      assert s[1..][|s| - 1 - |r|..] == s[|s| - |r|..];
      assert s[..|s| - |r|] == [s[0]] + s[1..][..|s| - 1 - |r|];
    }
  }

  /** Drops the trailing white space. */
  function TrimEnd(s: string): (r: string)
    ensures |r| <= |s|
  {
    if s != [] && IsWhitespace(s[|s| - 1]) then TrimEnd(s[..|s| - 1]) else s
  }

  /** What `TrimEnd` removes is white space, and what it keeps is a prefix that ends with none. */
  lemma {:induction false} TrimEndFacts(s: string)
    ensures var r := TrimEnd(s);
      && r == s[..|r|]
      && AllWhitespace(s[|r|..])
      && (r == [] || !IsWhitespace(r[|r| - 1]))
  {
    if s != [] && IsWhitespace(s[|s| - 1]) {
      TrimEndFacts(s[..|s| - 1]);
      var r := TrimEnd(s);
      assert s[..|s| - 1][..|r|] == s[..|r|];
      assert s[|r|..] == s[..|s| - 1][|r|..] + [s[|s| - 1]];
    }
  }

  /**
   * `s.trim()`: a middle slice of `s` with no white space at either end, and
   * what is cut off on either side is white space.
   */
  function Trim(s: string): (r: string)
    ensures Trimmed(r)
    ensures exists k :: OccursAt(s, r, k) && AllWhitespace(s[..k]) && AllWhitespace(s[k + |r|..])
    ensures r == [] <==> AllWhitespace(s)
  {
    var t := TrimStart(s);
    var r := TrimEnd(t);
    TrimStartFacts(s);
    TrimEndFacts(t);
    assert r != [] ==> r[0] == t[0];
    assert r == [] ==> AllWhitespace(s) by {
      if r == [] {
        assert |t| == 0;
        assert s[..|s| - |t|] == s;
      }
    }
    var k := |s| - |t|;
    assert s[k..][..|r|] == s[k..k + |r|];
    assert OccursAt(s, r, k);
    assert s[k + |r|..] == t[|r|..];
    r
  }

  /** `s.trim()` leaves a string with no surrounding white space as it is. */
  lemma TrimOfTrimmed(s: string)
    requires Trimmed(s)
    ensures Trim(s) == s
  {
    assert TrimStart(s) == s;
    assert TrimEnd(s) == s;
  }

  function LowerChar(c: char): char
  {
    if 'A' <= c <= 'Z' then (c as int + 32) as char else c
  }

  /** `s.toLowerCase()` restricted to the ASCII letters. */
  function Lower(s: string): (r: string)
    ensures |r| == |s|
    ensures forall i :: 0 <= i < |s| ==> r[i] == LowerChar(s[i])
  {
    if s == [] then [] else [LowerChar(s[0])] + Lower(s[1..])
  }

  /** `needle` occurs in `hay` starting at position `k`. */
  predicate OccursAt(hay: string, needle: string, k: int)
  {
    0 <= k && k + |needle| <= |hay| && hay[k..k + |needle|] == needle
  }

  /** `hay.includes(needle)`: `needle` occurs in `hay` as a contiguous substring. */
  predicate Includes(hay: string, needle: string)
    ensures Includes(hay, needle) ==> |needle| <= |hay|
    ensures needle == hay ==> Includes(hay, needle)
  {
    assert needle == hay ==> OccursAt(hay, needle, 0);
    exists k :: 0 <= k <= |hay| && OccursAt(hay, needle, k)
  }

  /** The empty string occurs in every string. */
  lemma IncludesEmpty(hay: string)
    ensures Includes(hay, [])
  {
    assert OccursAt(hay, [], 0);
  }

  /** `s.split(',')`: the pieces between commas, always at least one. */
  function SplitCommas(s: string): (r: seq<string>)
    ensures |r| >= 1
    ensures forall i :: 0 <= i < |r| ==> ',' !in r[i]
  {
    if s == [] then [[]]
    else
      var rest := SplitCommas(s[1..]);
      if s[0] == ',' then [[]] + rest else [[s[0]] + rest[0]] + rest[1..]
  }

  /** `parts.join(sep)`: an empty list joins to the empty string and a single part to itself. */
  function Join(parts: seq<string>, sep: string): (r: string)
    ensures parts == [] ==> r == []
    ensures |parts| == 1 ==> r == parts[0]
  {
    if parts == [] then []
    else if |parts| == 1 then parts[0]
    else parts[0] + sep + Join(parts[1..], sep)
  }

  /** Splitting on commas and joining the pieces with `,` gives back the original text. */
  lemma {:induction false} JoinSplitCommas(s: string)
    ensures Join(SplitCommas(s), ",") == s
  {
    if s != [] {
      JoinSplitCommas(s[1..]);
      var rest := SplitCommas(s[1..]);
      if s[0] == ',' {
        calc {
          Join(SplitCommas(s), ",");
          Join([[]] + rest, ",");
          { assert ([[]] + rest)[1..] == rest; }
          [] + "," + Join(rest, ",");
          [s[0]] + s[1..];
          s;
        }
      } else {
        var parts := SplitCommas(s);
        assert parts[0] == [s[0]] + rest[0] && parts[1..] == rest[1..];
        if |rest| == 1 {
          assert Join(rest, ",") == rest[0];
        } else {
          assert Join(rest, ",") == rest[0] + "," + Join(rest[1..], ",");
          assert Join(parts, ",") == parts[0] + "," + Join(parts[1..], ",");
        }
        assert s == [s[0]] + s[1..];
      }
    }
  }

  /** A piece with no comma, in front of any text, joins the first piece of its split. */
  lemma {:induction false} SplitCommasPrefix(p: string, s: string)
    requires ',' !in p
    ensures SplitCommas(p + s) == [p + SplitCommas(s)[0]] + SplitCommas(s)[1..]
  {
    if p != [] {
      SplitCommasPrefix(p[1..], s);
      assert (p + s)[1..] == p[1..] + s;
      assert p[0] != ',' by { assert p[0] in p; }
      assert [p[0]] + (p[1..] + SplitCommas(s)[0]) == p + SplitCommas(s)[0];
    } else {
      var parts := SplitCommas(s);
      assert p + s == s && p + parts[0] == parts[0];
      assert [parts[0]] + parts[1..] == parts;
    }
  }

  /** A comma ends the piece in front of it and starts a new one. */
  lemma SplitCommasAtComma(p: string, s: string)
    requires ',' !in p
    ensures SplitCommas(p + "," + s) == [p] + SplitCommas(s)
  {
    var q := "," + s;
    assert q[0] == ',' && q[1..] == s;
    assert SplitCommas(q) == [[]] + SplitCommas(s);
    assert p + "," + s == p + q;
    SplitCommasPrefix(p, q);
    assert p + [] == p;
  }

  /** Comma-free parts joined with `,` split back into exactly those parts. */
  lemma {:induction false} SplitJoinCommas(parts: seq<string>)
    requires |parts| >= 1
    requires forall i :: 0 <= i < |parts| ==> ',' !in parts[i]
    ensures SplitCommas(Join(parts, ",")) == parts
  {
    if |parts| == 1 {
      SplitCommasPrefix(parts[0], []);
      assert parts[0] + [] == parts[0];
    } else {
      SplitJoinCommas(parts[1..]);
      SplitCommasAtComma(parts[0], Join(parts[1..], ","));
      assert [parts[0]] + parts[1..] == parts;
    }
  }
}
