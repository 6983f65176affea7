/**
 * String helpers shared by the storefront: JavaScript's `trim`, `split`,
 * `join`, ASCII case mapping, decimal rendering of counters, and the
 * comma-separated image list idiom `(csv || '').split(',').map(s => s.trim()).filter(Boolean)`
 * that the cart view, the product grid, the product detail page, the
 * maintenance panel and the order e-mail endpoint all use.
 */
module Text {

  // ---------------------------------------------------------------------------
  // Whitespace and trim
  // ---------------------------------------------------------------------------

  /** The characters String.prototype.trim removes: ECMAScript WhiteSpace and LineTerminator. */
  predicate IsSpace(c: char) {
    || c == '\t' || c == '\n' || c == '\U{000B}' || c == '\U{000C}' || c == '\r' || c == ' '
    || c == '\U{00A0}' || c == '\U{1680}' || ('\U{2000}' <= c <= '\U{200A}')
    || c == '\U{2028}' || c == '\U{2029}' || c == '\U{202F}' || c == '\U{205F}'
    || c == '\U{3000}' || c == '\U{FEFF}'
  }

  predicate AllSpace(s: string) {
    forall i :: 0 <= i < |s| ==> IsSpace(s[i])
  }

  /** Neither end of `s` is whitespace. */
  predicate IsTrimmed(s: string) {
    s == [] || (!IsSpace(s[0]) && !IsSpace(s[|s| - 1]))
  }

  /** Drops the maximal whitespace prefix. */
  function TrimStart(s: string): (r: string)
    ensures |r| <= |s| && r == s[|s| - |r|..]
    ensures AllSpace(s[..|s| - |r|])
    ensures r == [] || !IsSpace(r[0])
  {
    if s != [] && IsSpace(s[0]) then TrimStart(s[1..]) else s
  }

  /** String.prototype.trim: whitespace is dropped from the front, then from the back. */
  function Trim(s: string): (r: string)
    ensures IsTrimmed(r)
    ensures |r| <= |s|
    ensures forall c :: c in r ==> c in s
    ensures r == [] <==> AllSpace(s)
    decreases |s|
  {
    if s == [] then []
    else if IsSpace(s[0]) then
      AllSpaceTail(s);
      Trim(s[1..])
    else if IsSpace(s[|s| - 1]) then
      AllSpaceInit(s);
      Trim(s[..|s| - 1])
    else s
  }

  lemma AllSpaceTail(s: string)
    requires s != [] && IsSpace(s[0])
    ensures AllSpace(s) <==> AllSpace(s[1..])
    ensures forall c :: c in s[1..] ==> c in s
  {
    if AllSpace(s[1..]) {
      forall i | 1 <= i < |s| ensures IsSpace(s[i]) { assert s[i] == s[1..][i - 1]; }
    }
  }

  lemma AllSpaceInit(s: string)
    requires s != [] && !IsSpace(s[0]) && IsSpace(s[|s| - 1])
    ensures |s| >= 2 && !AllSpace(s) && !AllSpace(s[..|s| - 1])
    ensures forall c :: c in s[..|s| - 1] ==> c in s
  {
    assert s[..|s| - 1][0] == s[0];
  }

  /** Trim removes exactly the surrounding whitespace: this pins down its result for every string. */
  lemma {:induction false} TrimSurrounded(pre: string, s: string, post: string)
    requires AllSpace(pre) && AllSpace(post) && IsTrimmed(s)
    ensures Trim(pre + s + post) == (if s == [] then [] else s)
    decreases |pre| + |post|
  {
    var x := pre + s + post;
    if pre != [] {
      assert x[0] == pre[0];
      assert x[1..] == pre[1..] + s + post;
      TrimSurrounded(pre[1..], s, post);
    } else if s == [] {
      assert x == post;
    } else if post != [] {
      assert x[0] == s[0];
      assert x[|x| - 1] == post[|post| - 1];
      assert x[..|x| - 1] == pre + s + post[..|post| - 1];
      TrimSurrounded(pre, s, post[..|post| - 1]);
    } else {
      assert x == s;
    }
  }

  /** Trim is idempotent. */
  lemma TrimIdempotent(s: string)
    ensures Trim(Trim(s)) == Trim(s)
  {
    var t := Trim(s);
    assert [] + t + [] == t;
    TrimSurrounded([], t, []);
  }

  // ---------------------------------------------------------------------------
  // Split and join
  // ---------------------------------------------------------------------------

  /** String.prototype.split with a one-character separator: never empty, no piece holds `d`. */
  function Split(s: string, d: char): (r: seq<string>)
    ensures |r| >= 1
    ensures forall i :: 0 <= i < |r| ==> d !in r[i]
  {
    if s == [] then [[]]
    else
      var rest := Split(s[1..], d);
      if s[0] == d then [[]] + rest
      else [[s[0]] + rest[0]] + rest[1..]
  }

  /** Array.prototype.join. */
  function Join(xs: seq<string>, sep: string): string
  {
    if xs == [] then []
    else if |xs| == 1 then xs[0]
    else xs[0] + sep + Join(xs[1..], sep)
  }

  /** Joining the pieces of a split with the separator gives the original string back. */
  lemma {:induction false} JoinSplit(s: string, d: char)
    ensures Join(Split(s, d), [d]) == s
  {
    if s != [] {
      var rest := Split(s[1..], d);
      JoinSplit(s[1..], d);
      if s[0] == d {
        assert Split(s, d) == [[]] + rest;
        assert ([[]] + rest)[1..] == rest;
      } else {
        var r := Split(s, d);
        assert r == [[s[0]] + rest[0]] + rest[1..];
        if |rest| == 1 {
          assert Join(r, [d]) == [s[0]] + rest[0];
        } else {
          assert r[1..] == rest[1..];
          assert Join(r, [d]) == [s[0]] + rest[0] + [d] + Join(rest[1..], [d]);
          assert Join(rest, [d]) == rest[0] + [d] + Join(rest[1..], [d]);
        }
      }
    }
  }

  lemma {:induction false} SplitWithout(a: string, d: char)
    requires d !in a
    ensures Split(a, d) == [a]
    decreases |a|
  {
    if a != [] {
      SplitWithout(a[1..], d);
      assert [a[0]] + a[1..] == a;
    }
  }

  lemma {:induction false} SplitFirstPiece(a: string, t: string, d: char)
    requires d !in a
    ensures Split(a + [d] + t, d) == [a] + Split(t, d)
    decreases |a|
  {
    if a == [] {
      assert a + [d] + t == [d] + t;
      assert ([d] + t)[1..] == t;
    } else {
      assert (a + [d] + t)[1..] == a[1..] + [d] + t;
      SplitFirstPiece(a[1..], t, d);
      assert [a[0]] + a[1..] == a;
    }
  }

  /** Splitting a join of separator-free pieces gives the pieces back. */
  lemma {:induction false} SplitJoin(xs: seq<string>, d: char)
    requires |xs| >= 1
    requires forall i :: 0 <= i < |xs| ==> d !in xs[i]
    ensures Split(Join(xs, [d]), d) == xs
    decreases |xs|
  {
    if |xs| == 1 {
      SplitWithout(xs[0], d);
    } else {
      SplitJoin(xs[1..], d);
      SplitFirstPiece(xs[0], Join(xs[1..], [d]), d);
      assert [xs[0]] + xs[1..] == xs;
    }
  }

  // ---------------------------------------------------------------------------
  // Comma-separated lists
  // ---------------------------------------------------------------------------

  /** A well-formed list entry: what a comma-separated list can hold and give back. */
  predicate IsEntry(s: string) {
    s != [] && IsTrimmed(s) && ',' !in s
  }

  /** `.map(s => s.trim()).filter(Boolean)`: the trimmed pieces that are not empty, in order. */
  function Entries(pieces: seq<string>): (r: seq<string>)
    ensures |r| <= |pieces|
    ensures forall i :: 0 <= i < |r| ==> r[i] != [] && IsTrimmed(r[i])
  {
    if pieces == [] then []
    else
      var t := Trim(pieces[0]);
      (if t == [] then [] else [t]) + Entries(pieces[1..])
  }

  /** A character none of the pieces holds is in none of the entries. */
  lemma {:induction false} EntriesKeepOut(pieces: seq<string>, c: char)
    requires forall i :: 0 <= i < |pieces| ==> c !in pieces[i]
    ensures forall i :: 0 <= i < |Entries(pieces)| ==> c !in Entries(pieces)[i]
  {
    if pieces != [] {
      assert c !in pieces[0];
      EntriesKeepOut(pieces[1..], c);
    }
  }

  /** `(csv || '').split(',').map(s => s.trim()).filter(Boolean)`, with a null input passed as "". */
  function ParseCsv(csv: string): (r: seq<string>)
    ensures forall i :: 0 <= i < |r| ==> IsEntry(r[i])
    ensures csv == [] ==> r == []
  {
    var pieces := Split(csv, ',');
    EntriesKeepOut(pieces, ',');
    Entries(pieces)
  }

  lemma {:induction false} EntriesEmptyIff(pieces: seq<string>)
    ensures Entries(pieces) == [] <==> forall i :: 0 <= i < |pieces| ==> AllSpace(pieces[i])
  {
    if pieces != [] {
      EntriesEmptyIff(pieces[1..]);
      if Trim(pieces[0]) == [] {
        assert forall i :: 1 <= i < |pieces| ==> pieces[i] == pieces[1..][i - 1];
      }
    }
  }

  /** The list is empty exactly when every comma-separated piece is blank. */
  lemma ParseCsvEmptyIff(csv: string)
    ensures ParseCsv(csv) == [] <==> forall p :: p in Split(csv, ',') ==> AllSpace(p)
  {
    var pieces := Split(csv, ',');
    EntriesEmptyIff(pieces);
    assert (forall p :: p in pieces ==> AllSpace(p)) <==> (forall i :: 0 <= i < |pieces| ==> AllSpace(pieces[i]));
  }

  /** Pieces that each trim to a given entry give exactly those entries. */
  lemma {:induction false} EntriesOfTrimmed(pieces: seq<string>, xs: seq<string>)
    requires |pieces| == |xs|
    requires forall i :: 0 <= i < |xs| ==> xs[i] != [] && Trim(pieces[i]) == xs[i]
    ensures Entries(pieces) == xs
  {
    if pieces != [] {
      EntriesOfTrimmed(pieces[1..], xs[1..]);
      assert [xs[0]] + xs[1..] == xs;
    }
  }

  /** Each element after the first with a single space in front: `xs.join(', ')` seen through `split(',')`. */
  function Spaced(xs: seq<string>): (r: seq<string>)
    requires |xs| >= 1
    ensures |r| == |xs| && r[0] == xs[0]
    ensures forall i :: 1 <= i < |xs| ==> r[i] == " " + xs[i]
  {
    [xs[0]] + seq(|xs| - 1, i requires 0 <= i < |xs| - 1 => " " + xs[i + 1])
  }

  lemma {:induction false} JoinSpaced(xs: seq<string>)
    requires |xs| >= 1
    ensures Join(xs, ", ") == Join(Spaced(xs), ",")
    decreases |xs|
  {
    if |xs| > 1 {
      JoinSpaced(xs[1..]);
      var s := Spaced(xs);
      var t := Spaced(xs[1..]);
      assert s[1..] == [" " + xs[1]] + t[1..];
      if |xs| == 2 {
        assert Join(s[1..], ",") == " " + xs[1];
      } else {
        assert Join(s[1..], ",") == " " + xs[1] + "," + Join(t[1..], ",");
        assert Join(t, ",") == xs[1] + "," + Join(t[1..], ",");
      }
    }
  }

  /**
   * Round trip: a list of entries stored as `urls.join(', ')` parses back to the same list.
   * This is how image lists are written by the maintenance panel and read everywhere else.
   */
  lemma {:induction false} ParseCsvOfJoin(xs: seq<string>)
    requires forall i :: 0 <= i < |xs| ==> IsEntry(xs[i])
    ensures ParseCsv(Join(xs, ", ")) == xs
  {
    if xs != [] {
      var joined := Join(xs, ", ");
      var s := Spaced(xs);
      JoinSpaced(xs);
      assert forall i :: 0 <= i < |s| ==> ',' !in s[i] by {
        forall i | 0 <= i < |s| ensures ',' !in s[i] {
          if i > 0 { assert s[i] == " " + xs[i]; }
        }
      }
      SplitJoin(s, ',');
      assert Split(joined, ',') == s;
      forall i | 0 <= i < |xs| ensures xs[i] != [] && Trim(s[i]) == xs[i] {
        SpacedPieceTrims(xs, i);
      }
      EntriesOfTrimmed(s, xs);
    }
  }

  lemma TrimEntry(x: string, pad: string)
    requires IsEntry(x) && AllSpace(pad)
    ensures Trim(pad + x) == x
  {
    assert pad + x + [] == pad + x;
    TrimSurrounded(pad, x, []);
  }

  lemma SpacedPieceTrims(xs: seq<string>, i: nat)
    requires i < |xs|
    requires forall i :: 0 <= i < |xs| ==> IsEntry(xs[i])
    ensures Trim(Spaced(xs)[i]) == xs[i]
  {
    if i == 0 {
      assert [] + xs[0] == xs[0];
      TrimEntry(xs[0], []);
    } else {
      assert IsSpace(" "[0]);
      TrimEntry(xs[i], " ");
    }
  }

  /** A character the text does not hold is in none of its pieces. */
  lemma {:induction false} SplitKeepsOut(s: string, d: char, c: char)
    requires c !in s
    ensures forall i :: 0 <= i < |Split(s, d)| ==> c !in Split(s, d)[i]
    decreases |s|
  {
    if s != [] {
      assert s[0] in s;
      forall x | x in s[1..] ensures x in s {
        var k :| 0 <= k < |s[1..]| && s[1..][k] == x;
        assert s[k + 1] == x;
      }
      SplitKeepsOut(s[1..], d, c);
    }
  }

  /** A character the list does not hold is in none of its entries. */
  lemma ParseCsvKeepsOut(csv: string, c: char)
    requires c !in csv
    ensures forall x :: x in ParseCsv(csv) ==> c !in x
  {
    SplitKeepsOut(csv, ',', c);
    EntriesKeepOut(Split(csv, ','), c);
  }

  /** The first entry of a comma-separated list, or `fallback` when it has none. */
  function FirstEntryOr(csv: string, fallback: string): (r: string)
    ensures r == fallback || IsEntry(r)
    ensures r != fallback ==> ParseCsv(csv) != [] && r == ParseCsv(csv)[0]
  {
    var entries := ParseCsv(csv);
    if |entries| > 0 then entries[0] else fallback
  }

  /** The fallback is used exactly when the list has no entries (for a fallback no entry can equal). */
  lemma FirstEntryFallbackIff(csv: string, fallback: string)
    requires !IsEntry(fallback) || fallback !in ParseCsv(csv)
    ensures FirstEntryOr(csv, fallback) == fallback <==> ParseCsv(csv) == []
  {
  }

  // ---------------------------------------------------------------------------
  // Prefixes, case, numbers
  // ---------------------------------------------------------------------------

  predicate StartsWith(s: string, prefix: string) {
    |prefix| <= |s| && s[..|prefix|] == prefix
  }

  /** toLowerCase on one character, for the ASCII letters. */
  function LowerChar(c: char): char {
    if 'A' <= c <= 'Z' then (c as int + 32) as char else c
  }

  /** toUpperCase on one character, for the ASCII letters. */
  function UpperChar(c: char): char {
    if 'a' <= c <= 'z' then (c as int - 32) as char else c
  }

  /** String.prototype.toLowerCase, modelled on ASCII. */
  function ToLower(s: string): (r: string)
    ensures |r| == |s|
    ensures forall i :: 0 <= i < |s| ==> r[i] == LowerChar(s[i])
  {
    seq(|s|, i requires 0 <= i < |s| => LowerChar(s[i]))
  }

  predicate IsDigit(c: char) {
    '0' <= c <= '9'
  }

  function DigitChar(d: nat): (c: char)
    requires d < 10
    ensures IsDigit(c) && c as int - '0' as int == d
  {
    ('0' as int + d) as char
  }

  /** The decimal rendering of a natural number, as a template literal renders it. */
  function NatToString(n: nat): (r: string)
    ensures r != [] && forall i :: 0 <= i < |r| ==> IsDigit(r[i])
  {
    if n < 10 then [DigitChar(n)] else NatToString(n / 10) + [DigitChar(n % 10)]
  }

  /** Distinct numbers render differently. */
  lemma {:induction false} NatToStringInjective(a: nat, b: nat)
    requires NatToString(a) == NatToString(b)
    ensures a == b
  {
    var s := NatToString(a);
    assert s[|s| - 1] == DigitChar(a % 10);
    assert s[|s| - 1] == DigitChar(b % 10);
    if a >= 10 && b >= 10 {
      assert NatToString(a / 10) == s[..|s| - 1] == NatToString(b / 10);
      NatToStringInjective(a / 10, b / 10);
    }
  }
}
