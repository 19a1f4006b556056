/** The address-fragment format that shares a scene: each tree's values joined
    with '_', the trees joined with ','. `String.prototype.split` and
    `Array.prototype.join` are written out; the conversion between numbers and
    their decimal text is a parameter of the model (`NumberFormat`). */
module HashProtocol {
  import opened Utilities
  import opened Attributes

  const ATTRIBUTE_DELIMITER: char := '_'
  const TREE_DELIMITER: char := ','

  /** Number-to-text (string concatenation of a number) and text-to-number
      (`parseFloat`), taken as given. */
  datatype NumberFormat = NumberFormat(show: real -> string, parse: string -> real)

  /** A token no delimiter of the format can occur in. */
  predicate Clean(t: string) {
    ATTRIBUTE_DELIMITER !in t && TREE_DELIMITER !in t
  }

  /** The value's text reads back as the value and holds no delimiter; true of
      JavaScript's number formatting for every finite number. */
  predicate Exact(format: NumberFormat, x: real) {
    format.parse(format.show(x)) == x && Clean(format.show(x))
  }

  /** `parts.join(d)`: the pieces with one separator between neighbours. */
  function Join(parts: seq<string>, d: char): string {
    if |parts| == 0 then ""
    else if |parts| == 1 then parts[0]
    else parts[0] + [d] + Join(parts[1..], d)
  }

  /** `s.split(d)` for a one-character separator: the pieces between
      separators, never none at all (`"".split(d)` is `[""]`). */
  function Split(s: string, d: char): (parts: seq<string>)
    ensures |parts| >= 1
    ensures forall i :: 0 <= i < |parts| ==> d !in parts[i]
  {
    if |s| == 0 then [""]
    else
      var rest := Split(s[1..], d);
      if s[0] == d then [""] + rest
      else [[s[0]] + rest[0]] + rest[1..]
  }

  lemma {:induction false} JoinAppend(parts: seq<string>, last: string, d: char)
    requires |parts| >= 1
    ensures Join(parts + [last], d) == Join(parts, d) + [d] + last
    decreases |parts|
  {
    if |parts| == 1 {
      assert parts + [last] == [parts[0], last];
      assert [parts[0], last][1..] == [last];
    } else {
      assert (parts + [last])[1..] == parts[1..] + [last];
      JoinAppend(parts[1..], last, d);
    }
  }

  lemma {:induction false} SplitNoDelimiter(t: string, d: char)
    requires d !in t
    ensures Split(t, d) == [t]
    decreases |t|
  {
    if |t| > 0 {
      SplitNoDelimiter(t[1..], d);
      assert [t[0]] + t[1..] == t;
    }
  }

  lemma {:induction false} SplitAfterPiece(t: string, rest: string, d: char)
    requires d !in t
    ensures Split(t + [d] + rest, d) == [t] + Split(rest, d)
    decreases |t|
  {
    var s := t + [d] + rest;
    if |t| == 0 {
      assert s[0] == d && s[1..] == rest;
    } else {
      assert s[0] == t[0] && s[1..] == t[1..] + [d] + rest;
      SplitAfterPiece(t[1..], rest, d);
      assert [t[0]] + t[1..] == t;
    }
  }

  /** Splitting a join gives the pieces back when none holds the separator
      (and there is at least one piece: `[].join(d)` splits to `[""]`). */
  lemma {:induction false} SplitJoin(parts: seq<string>, d: char)
    requires |parts| >= 1
    requires forall i :: 0 <= i < |parts| ==> d !in parts[i]
    ensures Split(Join(parts, d), d) == parts
    decreases |parts|
  {
    if |parts| == 1 {
      SplitNoDelimiter(parts[0], d);
    } else {
      SplitJoin(parts[1..], d);
      SplitAfterPiece(parts[0], Join(parts[1..], d), d);
    }
  }

  /** Joining the pieces of a split gives the string back, whatever it is. */
  lemma {:induction false} JoinSplit(s: string, d: char)
    ensures Join(Split(s, d), d) == s
    decreases |s|
  {
    if |s| > 0 {
      var rest := Split(s[1..], d);
      JoinSplit(s[1..], d);
      if s[0] == d {
        assert Join([""] + rest, d) == "" + [d] + Join(rest, d) by {
          assert ([""] + rest)[1..] == rest;
        }
      } else if |rest| == 1 {
        assert Join([[s[0]] + rest[0]], d) == [s[0]] + rest[0];
      } else {
        var r := [[s[0]] + rest[0]] + rest[1..];
        assert r[1..] == rest[1..];
        assert Join(rest, d) == rest[0] + [d] + Join(rest[1..], d);
      }
    }
  }

  lemma {:induction false} JoinKeepsOut(parts: seq<string>, d: char, c: char)
    requires c != d
    requires forall i :: 0 <= i < |parts| ==> c !in parts[i]
    ensures c !in Join(parts, d)
    decreases |parts|
  {
    if |parts| > 1 {
      JoinKeepsOut(parts[1..], d, c);
    }
  }

  // ---------------------------------------------------------------------
  // One tree's hash string (`getAttributesHash`).

  /** The numbers of an attributes object in property order: the five table
      attributes, then the "undefined" property if a restore created it. */
  function Fields(a: AttributeObject): (xs: seq<real>)
    ensures |xs| == if a.strayValue.Some? then 6 else 5
  {
    var v := a.values;
    [v.length, v.divergence, v.reduction, v.lineWidth, v.branchings]
      + (if a.strayValue.Some? then [a.strayValue.value] else [])
  }

  function Shown(xs: seq<real>, format: NumberFormat): (ts: seq<string>)
    ensures |ts| == |xs| && forall i :: 0 <= i < |xs| ==> ts[i] == format.show(xs[i])
  {
    seq(|xs|, i requires 0 <= i < |xs| => format.show(xs[i]))
  }

  function Tokens(a: AttributeObject, format: NumberFormat): seq<string> {
    Shown(Fields(a), format)
  }

  /** The string `getAttributesHash` builds for one tree. */
  function TreeHash(a: AttributeObject, format: NumberFormat): string {
    Join(Tokens(a, format), ATTRIBUTE_DELIMITER)
  }

  /** Each piece followed by the separator, as the loop of `getAttributesHash`
      accumulates it. */
  function Terminated(parts: seq<string>, d: char): string {
    if parts == [] then "" else Terminated(parts[..|parts| - 1], d) + parts[|parts| - 1] + [d]
  }

  lemma {:induction false} TerminatedIsJoinPlusSeparator(parts: seq<string>, d: char)
    requires |parts| >= 1
    ensures Terminated(parts, d) == Join(parts, d) + [d]
    decreases |parts|
  {
    if |parts| > 1 {
      var front := parts[..|parts| - 1];
      TerminatedIsJoinPlusSeparator(front, d);
      JoinAppend(front, parts[|parts| - 1], d);
      assert front + [parts[|parts| - 1]] == parts;
    } else {
      assert parts[..0] == [];
    }
  }

  /** `getAttributesHash(attributes)`: append each value and '_', then drop
      the last character (`substring(0, length - 1)` clamps at 0). */
  method GetAttributesHash(attributes: AttributeObject, format: NumberFormat) returns (hash: string)
    ensures hash == TreeHash(attributes, format)
  {
    var fields := Fields(attributes);
    ghost var tokens := Tokens(attributes, format);
    hash := "";
    for i := 0 to |fields|
      invariant hash == Terminated(tokens[..i], ATTRIBUTE_DELIMITER)
    {
      assert tokens[..i + 1][..i] == tokens[..i];
      hash := hash + format.show(fields[i]) + "_";
    }
    assert tokens[..|fields|] == tokens;
    TerminatedIsJoinPlusSeparator(tokens, ATTRIBUTE_DELIMITER);
    hash := hash[..if |hash| == 0 then 0 else |hash| - 1];
  }

  /** Tokens of exactly formatted values are clean, so a tree's hash string
      holds no ','. */
  lemma {:induction false} TreeHashHasNoTreeDelimiter(a: AttributeObject, format: NumberFormat)
    requires forall i :: 0 <= i < |Fields(a)| ==> Exact(format, Fields(a)[i])
    ensures TREE_DELIMITER !in TreeHash(a, format)
  {
    JoinKeepsOut(Tokens(a, format), ATTRIBUTE_DELIMITER, TREE_DELIMITER);
  }

  /** Reading one tree's hash string back: split on '_' and parse. */
  function ParsedTokens(hash: string, format: NumberFormat): (xs: seq<real>)
  {
    var ts := Split(hash, ATTRIBUTE_DELIMITER);
    seq(|ts|, i requires 0 <= i < |ts| => format.parse(ts[i]))
  }

  /** Splitting and parsing a tree's hash string recovers its numbers in
      property order. */
  lemma {:induction false} TreeHashRoundTrip(a: AttributeObject, format: NumberFormat)
    requires forall i :: 0 <= i < |Fields(a)| ==> Exact(format, Fields(a)[i])
    ensures Split(TreeHash(a, format), ATTRIBUTE_DELIMITER) == Tokens(a, format)
    ensures ParsedTokens(TreeHash(a, format), format) == Fields(a)
  {
    SplitJoin(Tokens(a, format), ATTRIBUTE_DELIMITER);
  }

  /** Different attributes give different hash strings. */
  lemma {:induction false} TreeHashInjective(a: AttributeObject, b: AttributeObject, format: NumberFormat)
    requires forall i :: 0 <= i < |Fields(a)| ==> Exact(format, Fields(a)[i])
    requires forall i :: 0 <= i < |Fields(b)| ==> Exact(format, Fields(b)[i])
    requires TreeHash(a, format) == TreeHash(b, format)
    ensures a == b
  {
    TreeHashRoundTrip(a, format);
    TreeHashRoundTrip(b, format);
    var fa, fb := Fields(a), Fields(b);
    assert fa == fb;
    assert a.values == Values(fa[0], fa[1], fa[2], fa[3], fa[4]);
    assert b.values == Values(fb[0], fb[1], fb[2], fb[3], fb[4]);
    if a.strayValue.Some? {
      assert b.strayValue.Some? && fa[5] == a.strayValue.value && fb[5] == b.strayValue.value;
    }
  }

  // ---------------------------------------------------------------------
  // The scene's hash string (`attributeHashes.join(",")` and `readHash`).

  function SceneHash(treeHashes: seq<string>): (hash: string)
    ensures |treeHashes| >= 1 && (forall i :: 0 <= i < |treeHashes| ==> TREE_DELIMITER !in treeHashes[i]) ==>
              Split(hash, TREE_DELIMITER) == treeHashes
  {
    if |treeHashes| >= 1 && (forall i :: 0 <= i < |treeHashes| ==> TREE_DELIMITER !in treeHashes[i]) then
      SplitJoin(treeHashes, TREE_DELIMITER);
      Join(treeHashes, TREE_DELIMITER)
    else
      Join(treeHashes, TREE_DELIMITER)
  }

  /** Joining every tree's tokens with '_' and the trees with ',', then
      splitting back, recovers every tree's token list in order, provided no
      token holds a delimiter and no list is empty. */
  lemma {:induction false} DecodeEncode(trees: seq<seq<string>>)
    requires |trees| >= 1
    requires forall i :: 0 <= i < |trees| ==> |trees[i]| >= 1
    requires forall i, j :: 0 <= i < |trees| && 0 <= j < |trees[i]| ==> Clean(trees[i][j])
    ensures var sets := Split(SceneHash(seq(|trees|, i requires 0 <= i < |trees| => Join(trees[i], ATTRIBUTE_DELIMITER))), TREE_DELIMITER);
            |sets| == |trees| && forall i :: 0 <= i < |trees| ==> Split(sets[i], ATTRIBUTE_DELIMITER) == trees[i]
  {
    var hashes := seq(|trees|, i requires 0 <= i < |trees| => Join(trees[i], ATTRIBUTE_DELIMITER));
    forall i | 0 <= i < |trees|
      ensures TREE_DELIMITER !in hashes[i]
      ensures Split(hashes[i], ATTRIBUTE_DELIMITER) == trees[i]
    {
      JoinKeepsOut(trees[i], ATTRIBUTE_DELIMITER, TREE_DELIMITER);
      SplitJoin(trees[i], ATTRIBUTE_DELIMITER);
    }
  }

  /** The scene encoding of attributes objects decodes to each tree's tokens
      and, parsed, to each tree's numbers. */
  lemma {:induction false} SceneRoundTrip(scene: seq<AttributeObject>, format: NumberFormat)
    requires |scene| >= 1
    requires forall t, i :: 0 <= t < |scene| && 0 <= i < |Fields(scene[t])| ==> Exact(format, Fields(scene[t])[i])
    ensures var sets := Split(SceneHash(seq(|scene|, t requires 0 <= t < |scene| => TreeHash(scene[t], format))), TREE_DELIMITER);
            |sets| == |scene| &&
            forall t :: 0 <= t < |scene| ==> Split(sets[t], ATTRIBUTE_DELIMITER) == Tokens(scene[t], format) &&
                                             ParsedTokens(sets[t], format) == Fields(scene[t])
  {
    var hashes := seq(|scene|, t requires 0 <= t < |scene| => TreeHash(scene[t], format));
    forall t | 0 <= t < |scene|
      ensures TREE_DELIMITER !in hashes[t]
      ensures Split(hashes[t], ATTRIBUTE_DELIMITER) == Tokens(scene[t], format)
      ensures ParsedTokens(hashes[t], format) == Fields(scene[t])
    {
      TreeHashHasNoTreeDelimiter(scene[t], format);
      TreeHashRoundTrip(scene[t], format);
    }
  }
}
