/** Tag lists: `parse_custom_confluences` (app.py:2148-2165), which turns the
    free-text confluence box into a list of distinct tags, and
    `collect_tags` (app.py:2958-2965), which gathers the sorted set of tags
    used in a comma-separated column. */
module Tags {
  import opened Wrappers
  import opened Text

  /** `raw.replace(";", ",").replace("\n", ",")`: both other separators
      become commas. */
  function Cleaned(raw: string): (r: string)
    ensures |r| == |raw|
    ensures forall i :: 0 <= i < |raw| ==>
      r[i] == (if raw[i] == ';' || raw[i] == '\n' then ',' else raw[i])
    ensures ';' !in r && '\n' !in r
  {
    ReplaceChar(ReplaceChar(raw, ';', ','), '\n', ',')
  }

  /** The stripped pieces that are not empty, in order. */
  function NonEmptyTrimmed(pieces: seq<string>): (r: seq<string>)
    ensures |r| <= |pieces|
    ensures forall i :: 0 <= i < |r| ==> r[i] != "" && Trimmed(r[i])
  {
    if pieces == [] then []
    else
      var rest := NonEmptyTrimmed(pieces[..|pieces| - 1]);
      var name := Trim(pieces[|pieces| - 1]);
      if name != "" then rest + [name] else rest
  }

  /** A character that no piece holds is in no stripped piece either. */
  lemma {:induction false} NonEmptyTrimmedAvoids(pieces: seq<string>, c: char)
    requires forall i :: 0 <= i < |pieces| ==> c !in pieces[i]
    ensures forall i :: 0 <= i < |NonEmptyTrimmed(pieces)| ==> c !in NonEmptyTrimmed(pieces)[i]
    decreases |pieces|
  {
    if pieces != [] {
      var n := |pieces| - 1;
      assert forall i :: 0 <= i < n ==> pieces[..n][i] == pieces[i];
      NonEmptyTrimmedAvoids(pieces[..n], c);
      TrimWithin(pieces[n]);
    }
  }

  /** Stripping a piece: the next loop step of `NonEmptyTrimmed`. */
  lemma NonEmptyTrimmedStep(pieces: seq<string>, i: nat)
    requires i < |pieces|
    ensures NonEmptyTrimmed(pieces[..i + 1]) ==
      if Trim(pieces[i]) != "" then NonEmptyTrimmed(pieces[..i]) + [Trim(pieces[i])]
      else NonEmptyTrimmed(pieces[..i])
  {
    assert pieces[..i + 1][..i] == pieces[..i];
  }

  /** The cleaned, split and stripped tokens of the confluence box. */
  function Tokens(raw: string): (r: seq<string>)
    ensures forall i :: 0 <= i < |r| ==> r[i] != "" && Trimmed(r[i])
  {
    NonEmptyTrimmed(Split(Cleaned(raw), ','))
  }

  /** The case-insensitive keys of a list of tags. */
  function Keys(tags: seq<string>): set<string> {
    set i | 0 <= i < |tags| :: Lower(tags[i])
  }

  lemma KeysSnoc(tags: seq<string>, t: string)
    ensures Keys(tags + [t]) == Keys(tags) + {Lower(t)}
  {
    var s := tags + [t];
    assert forall i :: 0 <= i < |tags| ==> s[i] == tags[i];
    assert s[|tags|] == t;
  }

  /** `tags[i]` is the first tag with its key. */
  predicate FirstOccurrence(tags: seq<string>, i: int)
    requires 0 <= i < |tags|
  {
    forall k :: 0 <= k < i ==> Lower(tags[k]) != Lower(tags[i])
  }

  /** The de-duplication loop as a function: each tag is kept when no
      earlier tag has the same lower-case key. */
  function Dedup(tags: seq<string>): (r: seq<string>)
    ensures |r| <= |tags|
  {
    if tags == [] then []
    else
      var n := |tags| - 1;
      if Lower(tags[n]) in Keys(tags[..n]) then Dedup(tags[..n]) else Dedup(tags[..n]) + [tags[n]]
  }

  /** Indices of the first occurrences, in increasing order. */
  function FirstPositions(tags: seq<string>): (p: seq<nat>)
  {
    if tags == [] then []
    else
      var n := |tags| - 1;
      if Lower(tags[n]) in Keys(tags[..n]) then FirstPositions(tags[..n]) else FirstPositions(tags[..n]) + [n]
  }

  /** A tag is new exactly when it is a first occurrence. */
  lemma NewKeyIsFirst(tags: seq<string>, n: nat)
    requires n < |tags|
    ensures Lower(tags[n]) in Keys(tags[..n]) <==> !FirstOccurrence(tags, n)
  {
    if Lower(tags[n]) in Keys(tags[..n]) {
      var k :| 0 <= k < n && Lower(tags[..n][k]) == Lower(tags[n]);
      assert Lower(tags[k]) == Lower(tags[n]);
    } else {
      forall k | 0 <= k < n
        ensures Lower(tags[k]) != Lower(tags[n])
      {
        assert tags[..n][k] == tags[k];
        assert Lower(tags[..n][k]) in Keys(tags[..n]);
      }
    }
  }

  /** The de-duplicated list is exactly the first occurrences of each key,
      taken in their original order: entry j is the tag at position p[j],
      the positions increase, each is a first occurrence, and every first
      occurrence is among them. */
  lemma {:induction false} DedupIsFirstOccurrences(tags: seq<string>)
    ensures var r, p := Dedup(tags), FirstPositions(tags);
      && |p| == |r|
      && (forall j :: 0 <= j < |p| ==> p[j] < |tags| && r[j] == tags[p[j]] && FirstOccurrence(tags, p[j]))
      && (forall j, j' :: 0 <= j < j' < |p| ==> p[j] < p[j'])
      && (forall i :: 0 <= i < |tags| && FirstOccurrence(tags, i) ==> i in p)
    decreases |tags|
  {
    if tags != [] {
      var n := |tags| - 1;
      var prefix := tags[..n];
      DedupIsFirstOccurrences(prefix);
      NewKeyIsFirst(tags, n);
      var p := FirstPositions(prefix);
      assert forall i :: 0 <= i < n ==> prefix[i] == tags[i];
      assert forall i :: 0 <= i < n ==> (FirstOccurrence(prefix, i) <==> FirstOccurrence(tags, i));
    }
  }

  /** No two kept tags share a key. */
  lemma DedupKeysDistinct(tags: seq<string>)
    ensures var r := Dedup(tags);
      forall j, j' :: 0 <= j < j' < |r| ==> Lower(r[j]) != Lower(r[j'])
  {
    DedupIsFirstOccurrences(tags);
    var r, p := Dedup(tags), FirstPositions(tags);
    forall j, j' | 0 <= j < j' < |r|
      ensures Lower(r[j]) != Lower(r[j'])
    {
      assert p[j] < p[j'] && FirstOccurrence(tags, p[j']);
    }
  }

  /** No key is lost: the kept tags have the same keys as all the tags. */
  lemma {:induction false} DedupKeepsKeys(tags: seq<string>)
    ensures Keys(Dedup(tags)) == Keys(tags)
    decreases |tags|
  {
    if tags != [] {
      var n := |tags| - 1;
      DedupKeepsKeys(tags[..n]);
      assert tags == tags[..n] + [tags[n]];
      KeysSnoc(tags[..n], tags[n]);
      if Lower(tags[n]) !in Keys(tags[..n]) {
        KeysSnoc(Dedup(tags[..n]), tags[n]);
      }
    }
  }

  /** `parse_custom_confluences` as a function: nothing for an empty box,
      otherwise the first occurrence of each case-insensitive tag. */
  function Confluences(raw: string): (r: seq<string>)
    ensures raw == "" ==> r == []
    ensures |r| <= |Tokens(raw)|
  {
    if raw == "" then [] else Dedup(Tokens(raw))
  }

  /** `parse_custom_confluences`: split on the separators, strip, drop
      empty pieces, then keep the first tag of each lower-case key. The
      function's two loops are the two methods below. */
  method ParseCustomConfluences(raw: string) returns (unique: seq<string>)
    ensures unique == Confluences(raw)
  {
    if raw == "" {
      return [];
    }
    var tags := StripPieces(Split(Cleaned(raw), ','));
    unique := DropRepeatedKeys(tags);
  }

  /** The first loop: the stripped pieces that are not empty. */
  method StripPieces(pieces: seq<string>) returns (tags: seq<string>)
    ensures tags == NonEmptyTrimmed(pieces)
  {
    tags := [];
    var i := 0;
    while i < |pieces|
      invariant 0 <= i <= |pieces|
      invariant tags == NonEmptyTrimmed(pieces[..i])
    {
      NonEmptyTrimmedStep(pieces, i);
      var name := Trim(pieces[i]);
      if name != "" {
        tags := tags + [name];
      }
      i := i + 1;
    }
    assert pieces[..|pieces|] == pieces;
  }

  /** The second loop: keep a tag when its lower-case key has not been
      seen, and remember the key. */
  method DropRepeatedKeys(tags: seq<string>) returns (unique: seq<string>)
    ensures unique == Dedup(tags)
  {
    var seen: set<string> := {};
    unique := [];
    var j := 0;
    while j < |tags|
      invariant 0 <= j <= |tags|
      invariant unique == Dedup(tags[..j])
      invariant seen == Keys(tags[..j])
    {
      var key := Lower(tags[j]);
      DedupStep(tags, j);
      if key !in seen {
        seen := seen + {key};
        unique := unique + [tags[j]];
      }
      j := j + 1;
    }
    assert tags[..|tags|] == tags;
  }

  /** One step of the de-duplication loop: the next tag is kept exactly
      when its key is not among the keys seen so far, and its key joins
      them. */
  lemma DedupStep(tags: seq<string>, j: nat)
    requires j < |tags|
    ensures Dedup(tags[..j + 1]) ==
      if Lower(tags[j]) in Keys(tags[..j]) then Dedup(tags[..j]) else Dedup(tags[..j]) + [tags[j]]
    ensures Keys(tags[..j + 1]) == Keys(tags[..j]) + {Lower(tags[j])}
  {
    assert tags[..j + 1][..j] == tags[..j];
    assert tags[..j + 1] == tags[..j] + [tags[j]];
    KeysSnoc(tags[..j], tags[j]);
  }

  /** The confluence parser returns nothing for an empty box, and
      otherwise tags that are not empty, not padded and pairwise distinct
      ignoring case. */
  lemma ConfluencesAreClean(raw: string)
    ensures raw == "" ==> Confluences(raw) == []
    ensures var r := Confluences(raw);
      forall j :: 0 <= j < |r| ==> r[j] != "" && Trimmed(r[j])
    ensures var r := Confluences(raw);
      forall j, j' :: 0 <= j < j' < |r| ==> Lower(r[j]) != Lower(r[j'])
  {
    if raw != "" {
      var t := Tokens(raw);
      DedupKeysDistinct(t);
      DedupIsFirstOccurrences(t);
    }
  }

  /** What the confluence parser keeps: no tag is empty, padded or holds a
      separator; the tags' keys are exactly the keys of the tokens; and
      each tag is the first token with its key, in token order. */
  lemma ConfluencesAreTheFirstTokens(raw: string)
    requires raw != ""
    ensures var r := Confluences(raw);
      forall j :: 0 <= j < |r| ==> ',' !in r[j] && ';' !in r[j] && '\n' !in r[j]
    ensures Keys(Confluences(raw)) == Keys(Tokens(raw))
    ensures var r, t, p := Confluences(raw), Tokens(raw), FirstPositions(Tokens(raw));
      && |p| == |r|
      && (forall j :: 0 <= j < |r| ==> p[j] < |t| && r[j] == t[p[j]] && FirstOccurrence(t, p[j]))
      && (forall j, j' :: 0 <= j < j' < |r| ==> p[j] < p[j'])
  {
    TokensAvoid(raw, ',');
    TokensAvoid(raw, ';');
    TokensAvoid(raw, '\n');
    var t := Tokens(raw);
    DedupIsFirstOccurrences(t);
    DedupKeepsKeys(t);
    forall j | 0 <= j < |Dedup(t)|
      ensures Dedup(t)[j] in t
    {
      assert Dedup(t)[j] == t[FirstPositions(t)[j]];
    }
  }

  /** No token holds a separator. */
  lemma TokensAvoid(raw: string, c: char)
    requires c == ',' || c == ';' || c == '\n'
    ensures forall i :: 0 <= i < |Tokens(raw)| ==> c !in Tokens(raw)[i]
  {
    var pieces := Split(Cleaned(raw), ',');
    if c != ',' {
      forall i | 0 <= i < |pieces|
        ensures c !in pieces[i]
      {
        PieceWithin(Cleaned(raw), i, c);
      }
    }
    NonEmptyTrimmedAvoids(pieces, c);
  }

  /** A character missing from a string is missing from each piece of its
      split. */
  lemma {:induction false} PieceWithin(s: string, i: nat, c: char)
    requires c !in s && i < |Split(s, ',')|
    ensures c !in Split(s, ',')[i]
    decreases |s|
  {
    if s != [] {
      var rest := Split(s[1..], ',');
      if s[0] == ',' {
        assert Split(s, ',') == [""] + rest;
        if i > 0 {
          PieceWithin(s[1..], i - 1, c);
        }
      } else {
        assert Split(s, ',') == [[s[0]] + rest[0]] + rest[1..];
        if i == 0 {
          PieceWithin(s[1..], 0, c);
        } else {
          PieceWithin(s[1..], i, c);
        }
      }
    }
  }

  /** Python's string order: code point by code point, a proper prefix
      coming first. */
  predicate StrLess(a: string, b: string) {
    if a == [] then b != []
    else if b == [] then false
    else if a[0] != b[0] then a[0] < b[0]
    else StrLess(a[1..], b[1..])
  }

  /** `StrLess` is a strict total order. */
  lemma {:induction false} StrLessStrictTotal(a: string, b: string)
    ensures !(StrLess(a, b) && StrLess(b, a))
    ensures a == b || StrLess(a, b) || StrLess(b, a)
    decreases |a|
  {
    if a != [] && b != [] && a[0] == b[0] {
      StrLessStrictTotal(a[1..], b[1..]);
      if a[1..] == b[1..] {
        assert a == [a[0]] + a[1..] && b == [b[0]] + b[1..];
      }
    }
  }

  lemma {:induction false} StrLessTransitive(a: string, b: string, c: string)
    requires StrLess(a, b) && StrLess(b, c)
    ensures StrLess(a, c)
    decreases |a|
  {
    if a != [] && b != [] && c != [] && a[0] == b[0] && b[0] == c[0] {
      StrLessTransitive(a[1..], b[1..], c[1..]);
    }
  }

  /** `m` is the least element of `s`. */
  predicate IsLeast(s: set<string>, m: string) {
    m in s && forall y :: y in s ==> y == m || StrLess(m, y)
  }

  /** Every nonempty set of strings has a least element. */
  lemma {:induction false} HasLeast(s: set<string>)
    requires s != {}
    ensures exists m :: IsLeast(s, m)
    decreases |s|
  {
    var x :| x in s;
    if s - {x} == {} {
      forall y | y in s
        ensures y == x
      {
        assert y !in s - {x};
      }
      assert IsLeast(s, x);
    } else {
      HasLeast(s - {x});
      var m :| IsLeast(s - {x}, m);
      StrLessStrictTotal(x, m);
      if StrLess(x, m) {
        forall y | y in s
          ensures y == x || StrLess(x, y)
        {
          if y != x && y != m {
            StrLessTransitive(x, m, y);
          }
        }
        assert IsLeast(s, x);
      } else {
        assert IsLeast(s, m);
      }
    }
  }

  /** The least element is unique. */
  lemma LeastIsUnique(s: set<string>)
    ensures forall m, m' :: IsLeast(s, m) && IsLeast(s, m') ==> m == m'
  {
    forall m, m' | IsLeast(s, m) && IsLeast(s, m')
      ensures m == m'
    {
      StrLessStrictTotal(m, m');
    }
  }

  /** `sorted(s)`: the elements of the set in increasing order. */
  function SortedSet(s: set<string>): (r: seq<string>)
    ensures forall x :: x in r <==> x in s
    ensures forall i, j :: 0 <= i < j < |r| ==> StrLess(r[i], r[j])
    decreases |s|
  {
    if s == {} then []
    else
      HasLeast(s);
      LeastIsUnique(s);
      var m :| IsLeast(s, m);
      [m] + SortedSet(s - {m})
  }

  /** The elements of a list, as a set. */
  function Elements(xs: seq<string>): set<string> {
    set x | x in xs
  }

  /** The tags of one cell: `fillna("")`, then the stripped comma-separated
      pieces that are not empty. */
  function CellTags(cell: Option<string>): set<string> {
    Elements(NonEmptyTrimmed(Split(cell.GetOr(""), ',')))
  }

  /** The tags of a whole column. */
  function TagSet(column: seq<Option<string>>): set<string> {
    if column == [] then {} else TagSet(column[..|column| - 1]) + CellTags(column[|column| - 1])
  }

  /** Adding one cell adds its tags. */
  lemma TagSetStep(column: seq<Option<string>>, i: nat)
    requires i < |column|
    ensures TagSet(column[..i + 1]) == TagSet(column[..i]) + CellTags(column[i])
  {
    assert column[..i + 1][..i] == column[..i];
  }

  /** A tag is in the column's set exactly when some cell holds it. */
  lemma TagSetMembers(column: seq<Option<string>>)
    ensures forall t :: t in TagSet(column) <==> exists i :: 0 <= i < |column| && t in CellTags(column[i])
  {
    forall t
      ensures t in TagSet(column) <==> exists i :: 0 <= i < |column| && t in CellTags(column[i])
    {
      TagSetMember(column, t);
    }
  }

  /** `TagSetMembers` for one tag. */
  lemma {:induction false} TagSetMember(column: seq<Option<string>>, t: string)
    ensures t in TagSet(column) <==> exists i :: 0 <= i < |column| && t in CellTags(column[i])
    decreases |column|
  {
    if column != [] {
      var n := |column| - 1;
      var prefix := column[..n];
      TagSetMember(prefix, t);
      assert TagSet(column) == TagSet(prefix) + CellTags(column[n]);
      if t in TagSet(column) {
        if t in CellTags(column[n]) {
          assert 0 <= n < |column| && t in CellTags(column[n]);
        } else {
          var i :| 0 <= i < n && t in CellTags(prefix[i]);
          assert prefix[i] == column[i];
        }
      } else {
        forall i | 0 <= i < |column|
          ensures t !in CellTags(column[i])
        {
          if i < n {
            assert prefix[i] == column[i];
          }
        }
      }
    }
  }

  /** Adding one element to a list adds it to the list's elements. */
  lemma ElementsSnoc(xs: seq<string>, x: string)
    ensures Elements(xs + [x]) == Elements(xs) + {x}
  {
  }

  /** The inner loop of `collect_tags` over one cell's comma-separated
      pieces: every stripped piece that is not empty joins the set. */
  method AddPieces(tags: set<string>, pieces: seq<string>) returns (out: set<string>)
    ensures out == tags + Elements(NonEmptyTrimmed(pieces))
  {
    out := tags;
    var j := 0;
    while j < |pieces|
      invariant 0 <= j <= |pieces|
      invariant out == tags + Elements(NonEmptyTrimmed(pieces[..j]))
    {
      NonEmptyTrimmedStep(pieces, j);
      ElementsSnoc(NonEmptyTrimmed(pieces[..j]), Trim(pieces[j]));
      var tag := Trim(pieces[j]);
      if tag != "" {
        out := out + {tag};
      }
      j := j + 1;
    }
    assert pieces[..|pieces|] == pieces;
  }

  /** `collect_tags`: add every stripped, nonempty comma-separated piece
      of every cell to a set, then sort it. */
  method CollectTags(column: seq<Option<string>>) returns (r: seq<string>)
    ensures r == SortedSet(TagSet(column))
  {
    var tags: set<string> := {};
    var i := 0;
    while i < |column|
      invariant 0 <= i <= |column|
      invariant tags == TagSet(column[..i])
    {
      tags := AddPieces(tags, Split(column[i].GetOr(""), ','));
      TagSetStep(column, i);
      i := i + 1;
    }
    assert column[..|column|] == column;
    r := SortedSet(tags);
  }

  /** What `collect_tags` returns: strictly increasing tags, so no
      duplicates; none empty, padded or holding a comma; and exactly the
      tags that occur in some cell. */
  lemma CollectedTags(column: seq<Option<string>>)
    ensures var r := SortedSet(TagSet(column));
      && (forall i, j :: 0 <= i < j < |r| ==> StrLess(r[i], r[j]))
      && (forall i :: 0 <= i < |r| ==> r[i] != "" && Trimmed(r[i]) && ',' !in r[i])
      && (forall t :: t in r <==> exists i :: 0 <= i < |column| && t in CellTags(column[i]))
  {
    var r := SortedSet(TagSet(column));
    TagSetMembers(column);
    forall k | 0 <= k < |r|
      ensures r[k] != "" && Trimmed(r[k]) && ',' !in r[k]
    {
      assert r[k] in TagSet(column);
      var i :| 0 <= i < |column| && r[k] in CellTags(column[i]);
      var pieces := Split(column[i].GetOr(""), ',');
      NonEmptyTrimmedAvoids(pieces, ',');
      var toks := NonEmptyTrimmed(pieces);
      var m :| 0 <= m < |toks| && toks[m] == r[k];
    }
  }
}
