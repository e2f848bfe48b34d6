/**
 String operations the gateway takes from Go's strings package: TrimSpace, Trim of
 one separator character, Split and Join.
 */
module Text {

  /** Go's unicode.IsSpace. */
  predicate IsSpace(c: char) {
    || '\t' <= c <= '\r' || c == ' ' || c == '\U{85}' || c == '\U{A0}' || c == '\U{1680}'
    || '\U{2000}' <= c <= '\U{200a}' || c == '\U{2028}' || c == '\U{2029}'
    || c == '\U{202f}' || c == '\U{205f}' || c == '\U{3000}'
  }

  function TrimLeft(s: string): string {
    if s != "" && IsSpace(s[0]) then TrimLeft(s[1..]) else s
  }

  function TrimRight(s: string): string {
    if s != "" && IsSpace(s[|s| - 1]) then TrimRight(s[..|s| - 1]) else s
  }

  /** strings.TrimSpace */
  function TrimSpace(s: string): string {
    TrimRight(TrimLeft(s))
  }

  /** No white space at either end. */
  predicate Trimmed(s: string) {
    s == "" || (!IsSpace(s[0]) && !IsSpace(s[|s| - 1]))
  }

  lemma {:induction false} TrimLeftEnds(s: string)
    ensures TrimLeft(s) == "" || !IsSpace(TrimLeft(s)[0])
    ensures exists k: nat :: k <= |s| && TrimLeft(s) == s[k..]
  {
    if s != "" && IsSpace(s[0]) {
      TrimLeftEnds(s[1..]);
      var k: nat :| k <= |s[1..]| && TrimLeft(s[1..]) == s[1..][k..];
      assert s[1..][k..] == s[k + 1..];
    } else {
      assert s == s[0..];
    }
  }

  lemma {:induction false} TrimRightEnds(s: string)
    ensures TrimRight(s) == "" || !IsSpace(TrimRight(s)[|TrimRight(s)| - 1])
    ensures exists k: nat :: k <= |s| && TrimRight(s) == s[..k]
  {
    if s != "" && IsSpace(s[|s| - 1]) {
      TrimRightEnds(s[..|s| - 1]);
      var k: nat :| k <= |s| - 1 && TrimRight(s[..|s| - 1]) == s[..|s| - 1][..k];
      assert s[..|s| - 1][..k] == s[..k];
    } else {
      assert s == s[..|s|];
    }
  }

  /** TrimSpace yields trimmed text and leaves trimmed text alone. */
  lemma TrimSpaceTrims(s: string)
    ensures Trimmed(TrimSpace(s))
    ensures Trimmed(s) ==> TrimSpace(s) == s
    ensures TrimSpace(TrimSpace(s)) == TrimSpace(s)
  {
    TrimLeftEnds(s);
    TrimRightEnds(TrimLeft(s));
    TrimSpaceFixes(TrimSpace(s));
  }

  lemma TrimSpaceFixes(s: string)
    ensures Trimmed(s) ==> TrimSpace(s) == s
  {}

  /** TrimSpace only removes characters. */
  lemma TrimSpaceSubset(s: string, c: char)
    requires c in TrimSpace(s)
    ensures c in s
  {
    TrimLeftEnds(s);
    TrimRightEnds(TrimLeft(s));
  }

  /** A character in front of split text: a separator starts a new part, any other joins the first. */
  function PutFirst(c: char, parts: seq<string>, sep: char): (r: seq<string>)
    requires parts != []
    ensures r != []
  {
    if c == sep then [""] + parts else [[c] + parts[0]] + parts[1..]
  }

  /** strings.Split on a one-character separator */
  function Split(s: string, sep: char): (parts: seq<string>)
    ensures |parts| > 0
  {
    if s == "" then [""] else PutFirst(s[0], Split(s[1..], sep), sep)
  }

  /** strings.Join with a one-character separator */
  function Join(parts: seq<string>, sep: char): string {
    if parts == [] then ""
    else if |parts| == 1 then parts[0]
    else parts[0] + [sep] + Join(parts[1..], sep)
  }

  function StripLeft(s: string, sep: char): string {
    if s != "" && s[0] == sep then StripLeft(s[1..], sep) else s
  }

  function StripRight(s: string, sep: char): string {
    if s != "" && s[|s| - 1] == sep then StripRight(s[..|s| - 1], sep) else s
  }

  /** strings.Trim with a one-character cut set */
  function Strip(s: string, sep: char): string {
    StripRight(StripLeft(s, sep), sep)
  }

  /**
   How a list column is read back: Channel.GetKeys (newline) and Channel.GetModels
   (comma) both trim the separator from the ends and then split.
   */
  function ReadList(text: string, sep: char): seq<string> {
    if text == "" then [] else Split(Strip(text, sep), sep)
  }

  predicate SepFree(parts: seq<string>, sep: char) {
    forall p :: p in parts ==> sep !in p
  }

  /** The lists that survive being joined, written and read back. */
  predicate Storable(parts: seq<string>, sep: char) {
    && parts != []
    && SepFree(parts, sep)
    && parts[0] != ""
    && parts[|parts| - 1] != ""
  }

  lemma {:induction false} SplitParts(s: string, sep: char)
    ensures SepFree(Split(s, sep), sep)
    ensures Join(Split(s, sep), sep) == s
  {
    if s != "" {
      SplitParts(s[1..], sep);
      var rest := Split(s[1..], sep);
      if s[0] == sep {
        assert ([""] + rest)[1..] == rest;
      } else {
        var parts := [[s[0]] + rest[0]] + rest[1..];
        forall p | p in parts
          ensures sep !in p
        {
          if p != parts[0] {
            assert p in rest;
          } else {
            assert rest[0] in rest;
          }
        }
        assert parts[1..] == rest[1..];
        assert [s[0]] + s[1..] == s;
      }
    }
  }

  lemma {:induction false} SplitPart(p: string, sep: char)
    requires sep !in p
    ensures Split(p, sep) == [p]
  {
    if p != "" {
      SplitPart(p[1..], sep);
      assert [p[0]] + p[1..] == p;
    }
  }

  lemma SplitFirst(c: char, s: string, sep: char)
    ensures Split([c] + s, sep) == PutFirst(c, Split(s, sep), sep)
  {
    assert ([c] + s)[1..] == s;
  }

  lemma PutFirstConcat(c: char, p: seq<string>, q: seq<string>, sep: char)
    requires p != []
    ensures PutFirst(c, p + q, sep) == PutFirst(c, p, sep) + q
  {
    assert (p + q)[1..] == p[1..] + q;
  }

  lemma {:induction false} SplitConcat(a: string, b: string, sep: char)
    ensures Split(a + [sep] + b, sep) == Split(a, sep) + Split(b, sep)
  {
    if a == "" {
      assert a + [sep] + b == [sep] + b;
      SplitFirst(sep, b, sep);
    } else {
      assert a == [a[0]] + a[1..] && a + [sep] + b == [a[0]] + (a[1..] + [sep] + b);
      SplitFirst(a[0], a[1..], sep);
      SplitFirst(a[0], a[1..] + [sep] + b, sep);
      SplitConcat(a[1..], b, sep);
      PutFirstConcat(a[0], Split(a[1..], sep), Split(b, sep), sep);
    }
  }

  lemma {:induction false} SplitJoin(parts: seq<string>, sep: char)
    requires parts != [] && SepFree(parts, sep)
    ensures Split(Join(parts, sep), sep) == parts
  {
    SplitPart(parts[0], sep);
    if |parts| > 1 {
      SplitJoin(parts[1..], sep);
      SplitConcat(parts[0], Join(parts[1..], sep), sep);
    }
  }

  lemma {:induction false} JoinConcat(a: seq<string>, b: seq<string>, sep: char)
    requires a != [] && b != []
    ensures Join(a + b, sep) == Join(a, sep) + [sep] + Join(b, sep)
  {
    assert (a + b)[1..] == a[1..] + b;
    if |a| == 1 {
      assert a[1..] + b == b;
    } else {
      JoinConcat(a[1..], b, sep);
    }
  }

  lemma {:induction false} JoinEnds(parts: seq<string>, sep: char)
    requires parts != [] && parts[0] != "" && parts[|parts| - 1] != ""
    ensures Join(parts, sep) != ""
    ensures Join(parts, sep)[0] == parts[0][0]
    ensures Join(parts, sep)[|Join(parts, sep)| - 1] == Last(parts[|parts| - 1])
  {
    if |parts| > 1 {
      JoinLast(parts[1..], sep);
    }
  }

  lemma {:induction false} JoinLast(parts: seq<string>, sep: char)
    requires parts != [] && parts[|parts| - 1] != ""
    ensures Join(parts, sep) != ""
    ensures Join(parts, sep)[|Join(parts, sep)| - 1] == Last(parts[|parts| - 1])
  {
    if |parts| > 1 {
      JoinLast(parts[1..], sep);
    }
  }

  function Last(s: string): char
    requires s != ""
  {
    s[|s| - 1]
  }

  lemma {:induction false} StripEnds(s: string, sep: char)
    ensures var t := Strip(s, sep); t == "" || (t[0] != sep && t[|t| - 1] != sep)
  {
    StripLeftEnds(s, sep);
    StripRightEnds(StripLeft(s, sep), sep);
  }

  lemma {:induction false} StripLeftEnds(s: string, sep: char)
    ensures var t := StripLeft(s, sep); t == "" || t[0] != sep
  {
    if s != "" && s[0] == sep {
      StripLeftEnds(s[1..], sep);
    }
  }

  lemma {:induction false} StripRightEnds(s: string, sep: char)
    ensures var t := StripRight(s, sep); t == "" || (t[0] == s[0] && t[|t| - 1] != sep)
  {
    if s != "" && s[|s| - 1] == sep {
      StripRightEnds(s[..|s| - 1], sep);
    }
  }

  lemma {:induction false} SplitEnds(s: string, sep: char)
    requires s != "" && s[0] != sep && s[|s| - 1] != sep
    ensures Split(s, sep)[0] != ""
    ensures Last(s) != sep && Split(s, sep)[|Split(s, sep)| - 1] != ""
  {
    SplitLast(s, sep);
  }

  lemma {:induction false} SplitLast(s: string, sep: char)
    requires s != "" && s[|s| - 1] != sep
    ensures Split(s, sep)[|Split(s, sep)| - 1] != ""
  {
    if |s| > 1 {
      SplitLast(s[1..], sep);
      var rest := Split(s[1..], sep);
      assert Split(s, sep) == if s[0] == sep then [""] + rest else [[s[0]] + rest[0]] + rest[1..];
    }
  }

  /** What reading a column can produce: nothing, one blank part, or a storable list. */
  lemma ReadListShape(text: string, sep: char)
    ensures text == "" <==> ReadList(text, sep) == []
    ensures SepFree(ReadList(text, sep), sep)
    ensures ReadList(text, sep) in [[], [""]] || Storable(ReadList(text, sep), sep)
  {
    if text != "" {
      var t := Strip(text, sep);
      SplitParts(t, sep);
      StripEnds(text, sep);
      if t != "" {
        SplitEnds(t, sep);
      }
    }
  }

  /**
   A non-empty list survives a write and a read exactly when no part holds the
   separator and the first and last parts are not blank.
   */
  lemma StorageRoundTrip(parts: seq<string>, sep: char)
    requires parts != []
    ensures ReadList(Join(parts, sep), sep) == parts <==> Storable(parts, sep)
  {
    if Storable(parts, sep) {
      JoinEnds(parts, sep);
      var text := Join(parts, sep);
      assert parts[0] in parts && parts[|parts| - 1] in parts;
      assert Last(parts[|parts| - 1]) in parts[|parts| - 1];
      assert Strip(text, sep) == text;
      SplitJoin(parts, sep);
    } else if ReadList(Join(parts, sep), sep) == parts {
      ReadListShape(Join(parts, sep), sep);
    }
  }

  /** A list without its blank ends; of blanks only, one stays. */
  function Inner(parts: seq<string>): seq<string> {
    if |parts| <= 1 then parts
    else if parts[0] == "" then Inner(parts[1..])
    else if parts[|parts| - 1] == "" then Inner(parts[..|parts| - 1])
    else parts
  }

  lemma StripFirst(s: string, sep: char)
    ensures Strip([sep] + s, sep) == Strip(s, sep)
  {
    assert ([sep] + s)[1..] == s;
  }

  lemma StripLast(s: string, sep: char)
    requires s != "" && s[0] != sep
    ensures Strip(s + [sep], sep) == Strip(s, sep)
  {
    assert (s + [sep])[..|s|] == s;
  }

  lemma JoinFirst(parts: seq<string>, sep: char)
    requires parts != [] && parts[0] != ""
    ensures Join(parts, sep) != "" && Join(parts, sep)[0] == parts[0][0]
  {}

  /** A column is read back as the list that was written, without its blank ends. */
  lemma {:induction false} ReadsInner(parts: seq<string>, sep: char)
    requires parts != [] && SepFree(parts, sep)
    ensures Join(parts, sep) != "" ==> ReadList(Join(parts, sep), sep) == Inner(parts)
    ensures Split(Strip(Join(parts, sep), sep), sep) == Inner(parts)
  {
    if |parts| == 1 {
      if parts[0] != "" {
        StorageRoundTrip(parts, sep);
      }
    } else if parts[0] == "" {
      assert Join(parts, sep) == [sep] + Join(parts[1..], sep);
      StripFirst(Join(parts[1..], sep), sep);
      ReadsInner(parts[1..], sep);
    } else if parts[|parts| - 1] == "" {
      var init := parts[..|parts| - 1];
      assert parts == init + [""];
      JoinConcat(init, [""], sep);
      assert Join(init, sep) + [sep] + "" == Join(init, sep) + [sep];
      assert parts[0] in parts;
      JoinFirst(init, sep);
      StripLast(Join(init, sep), sep);
      ReadsInner(init, sep);
    } else {
      StorageRoundTrip(parts, sep);
      JoinFirst(parts, sep);
    }
  }

  lemma {:induction false} JoinedPart(parts: seq<string>, sep: char, x: string)
    requires x in parts && sep !in x
    ensures x in Split(Join(parts, sep), sep)
  {
    SplitPart(x, sep);
    if |parts| > 1 {
      SplitConcat(parts[0], Join(parts[1..], sep), sep);
      if x != parts[0] {
        JoinedPart(parts[1..], sep, x);
      }
    }
  }

  lemma {:induction false} StripLeftKeeps(s: string, sep: char, x: string)
    requires x in Split(s, sep) && x != ""
    ensures x in Split(StripLeft(s, sep), sep)
  {
    if s != "" && s[0] == sep {
      StripLeftKeeps(s[1..], sep, x);
    }
  }

  lemma {:induction false} StripRightKeeps(s: string, sep: char, x: string)
    requires x in Split(s, sep) && x != ""
    ensures x in Split(StripRight(s, sep), sep)
  {
    if s != "" && s[|s| - 1] == sep {
      var init := s[..|s| - 1];
      assert s == init + [sep] + "";
      SplitConcat(init, "", sep);
      StripRightKeeps(init, sep, x);
    }
  }

  /** Whatever else a list holds, its non-blank parts without a separator are read back. */
  lemma PartsSurvive(parts: seq<string>, sep: char, x: string)
    requires x in parts && x != "" && sep !in x
    ensures x in ReadList(Join(parts, sep), sep)
  {
    JoinedPart(parts, sep, x);
    StripLeftKeeps(Join(parts, sep), sep, x);
    StripRightKeeps(StripLeft(Join(parts, sep), sep), sep, x);
  }
}
