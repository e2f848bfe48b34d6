/**
 The ordered, duplicate-free model name lists of controller/channel_upstream_update.go.
 */
module NameLists {
  import opened Text

  function Names(s: seq<string>): set<string> {
    set x | x in s
  }

  predicate Distinct(s: seq<string>) {
    forall i, j :: 0 <= i < j < |s| ==> s[i] != s[j]
  }

  /** What normalizeModelNames returns: distinct, trimmed, non-blank names. */
  predicate Clean(s: seq<string>) {
    && Distinct(s)
    && forall x :: x in s ==> x != "" && Trimmed(x)
  }

  /** lo.Uniq: first occurrences, in order. */
  function Uniq(s: seq<string>): seq<string> {
    if s == [] then []
    else
      var init := Uniq(s[..|s| - 1]);
      if s[|s| - 1] in init then init else init + [s[|s| - 1]]
  }

  /** lo.FilterMap with TrimSpace, dropping blanks. */
  function TrimAll(s: seq<string>): seq<string> {
    if s == [] then []
    else
      var init := TrimAll(s[..|s| - 1]);
      var last := TrimSpace(s[|s| - 1]);
      if last == "" then init else init + [last]
  }

  /** normalizeModelNames */
  function Normalize(s: seq<string>): seq<string> {
    Uniq(TrimAll(s))
  }

  /** lo.Filter on membership. */
  function Keep(s: seq<string>, names: set<string>): seq<string> {
    if s == [] then []
    else
      var init := Keep(s[..|s| - 1], names);
      if s[|s| - 1] in names then init + [s[|s| - 1]] else init
  }

  function Drop(s: seq<string>, names: set<string>): seq<string> {
    Keep(s, Names(s) - names)
  }

  /** mergeModelNames */
  function Merge(base: seq<string>, appended: seq<string>): seq<string> {
    Normalize(base) + Drop(Normalize(appended), Names(Normalize(base)))
  }

  /** subtractModelNames */
  function Subtract(base: seq<string>, removed: seq<string>): seq<string> {
    Drop(Normalize(base), Names(Normalize(removed)))
  }

  /** intersectModelNames */
  function Intersect(base: seq<string>, allowed: seq<string>): seq<string> {
    Keep(Normalize(base), Names(Normalize(allowed)))
  }

  /** applySelectedModelChanges */
  function ApplySelected(origin: seq<string>, add: seq<string>, remove: seq<string>): seq<string> {
    Subtract(Merge(origin, Normalize(add)), Subtract(Normalize(remove), Normalize(add)))
  }

  lemma {:induction false} UniqNames(s: seq<string>)
    ensures Names(Uniq(s)) == Names(s)
    ensures |Uniq(s)| <= |s|
  {
    if s != [] {
      var init, last := s[..|s| - 1], s[|s| - 1];
      UniqNames(init);
      assert Names(s) == Names(init) + {last};
      if last in Uniq(init) {
        assert last in Names(Uniq(init));
      } else {
        assert Names(Uniq(s)) == Names(Uniq(init)) + {last};
      }
    }
  }

  lemma UniqPush(s: seq<string>, x: string)
    ensures Uniq(s + [x]) == if x in Names(s) then Uniq(s) else Uniq(s) + [x]
  {
    assert (s + [x])[..|s|] == s;
    UniqNames(s);
    assert x in Uniq(s) <==> x in Names(Uniq(s));
  }

  lemma {:induction false} UniqPrefix(a: seq<string>, b: seq<string>)
    ensures Uniq(a) <= Uniq(a + b)
  {
    if b == [] {
      assert a + b == a;
    } else {
      UniqPrefix(a, b[..|b| - 1]);
      assert (a + b)[..|a + b| - 1] == a + b[..|b| - 1];
    }
  }

  lemma {:induction false} UniqDistinct(s: seq<string>)
    ensures Distinct(Uniq(s))
    ensures Distinct(s) ==> Uniq(s) == s
  {
    if s != [] {
      var init, last := s[..|s| - 1], s[|s| - 1];
      assert s == init + [last];
      UniqDistinct(init);
      UniqNames(init);
      if Distinct(s) {
        assert last !in Names(init);
        assert last !in Names(Uniq(init));
      }
    }
  }

  predicate NonBlank(s: seq<string>) {
    forall x :: x in s ==> x != "" && Trimmed(x)
  }

  lemma {:induction false} TrimAllNonBlank(s: seq<string>)
    ensures NonBlank(TrimAll(s))
    ensures NonBlank(s) ==> TrimAll(s) == s
  {
    if s != [] {
      var init, last := s[..|s| - 1], s[|s| - 1];
      assert s == init + [last];
      TrimAllNonBlank(init);
      TrimSpaceTrims(last);
      if NonBlank(s) {
        assert last in s;
        assert forall x :: x in init ==> x in s;
      }
    }
  }

  lemma {:induction false} TrimAllConcat(a: seq<string>, b: seq<string>)
    ensures TrimAll(a + b) == TrimAll(a) + TrimAll(b)
  {
    if b == [] {
      assert a + b == a;
    } else {
      TrimAllConcat(a, b[..|b| - 1]);
      assert (a + b)[..|a + b| - 1] == a + b[..|b| - 1];
    }
  }

  lemma TrimAllBlank()
    ensures TrimAll([""]) == []
  {
    assert [""][..0] == [];
  }

  lemma {:induction false} StripLeftTrimmed(s: string, sep: char)
    ensures TrimAll(Split(StripLeft(s, sep), sep)) == TrimAll(Split(s, sep))
  {
    if s != "" && s[0] == sep {
      StripLeftTrimmed(s[1..], sep);
      TrimAllConcat([""], Split(s[1..], sep));
      TrimAllBlank();
    }
  }

  lemma {:induction false} StripRightTrimmed(s: string, sep: char)
    ensures TrimAll(Split(StripRight(s, sep), sep)) == TrimAll(Split(s, sep))
  {
    if s != "" && s[|s| - 1] == sep {
      var init := s[..|s| - 1];
      StripRightTrimmed(init, sep);
      assert s == init + [sep] + "";
      SplitConcat(init, "", sep);
      TrimAllConcat(Split(init, sep), [""]);
      TrimAllBlank();
    }
  }

  /** Reading a column and normalizing it is splitting it and normalizing: the stripped ends are blank. */
  lemma ReadNormalized(text: string, sep: char)
    ensures Normalize(ReadList(text, sep)) == Normalize(Split(text, sep))
  {
    if text == "" {
      TrimAllBlank();
    } else {
      StripLeftTrimmed(text, sep);
      StripRightTrimmed(StripLeft(text, sep), sep);
    }
  }

  lemma {:induction false} TrimAllNames(s: seq<string>, x: string)
    ensures x in TrimAll(s) <==> x != "" && exists y :: y in s && TrimSpace(y) == x
  {
    if s != [] {
      var init, last := s[..|s| - 1], s[|s| - 1];
      assert s == init + [last];
      TrimAllNames(init, x);
      assert x in TrimAll(s) <==> x in TrimAll(init) || (x != "" && x == TrimSpace(last));
    }
  }

  /** normalizeModelNames returns clean lists and leaves clean lists alone. */
  lemma NormalizeCleans(s: seq<string>)
    ensures Clean(Normalize(s))
    ensures Clean(s) ==> Normalize(s) == s
  {
    TrimAllNonBlank(s);
    UniqDistinct(TrimAll(s));
    UniqNames(TrimAll(s));
    forall x | x in Normalize(s)
      ensures x != "" && Trimmed(x)
    {
      assert x in Names(Uniq(TrimAll(s)));
    }
  }

  /** A normalized list holds exactly the trimmed non-blank names of its input. */
  lemma NormalizeNames(s: seq<string>, x: string)
    ensures x in Normalize(s) <==> x != "" && exists y :: y in s && TrimSpace(y) == x
  {
    TrimAllNames(s, x);
    UniqNames(TrimAll(s));
    assert x in Names(Uniq(TrimAll(s))) <==> x in Names(TrimAll(s));
  }

  lemma {:induction false} KeepNames(s: seq<string>, names: set<string>)
    ensures Names(Keep(s, names)) == Names(s) * names
    ensures Distinct(s) ==> Distinct(Keep(s, names))
    ensures Names(s) <= names ==> Keep(s, names) == s
    ensures |Keep(s, names)| <= |s|
  {
    if s != [] {
      var init, last := s[..|s| - 1], s[|s| - 1];
      assert s == init + [last];
      KeepNames(init, names);
      assert Names(s) == Names(init) + {last};
      assert Names(Keep(s, names)) == Names(Keep(init, names)) + ({last} * names);
      if Distinct(s) {
        assert Distinct(init);
        assert last !in Names(init);
        assert last !in Names(Keep(init, names));
      }
    }
  }

  lemma {:induction false} KeepConcat(s: seq<string>, t: seq<string>, names: set<string>)
    ensures Keep(s + t, names) == Keep(s, names) + Keep(t, names)
  {
    if t == [] {
      assert s + t == s;
    } else {
      KeepConcat(s, t[..|t| - 1], names);
      assert (s + t)[..|s + t| - 1] == s + t[..|t| - 1];
    }
  }

  lemma {:induction false} KeepAgree(s: seq<string>, a: set<string>, b: set<string>)
    requires Names(s) * a == Names(s) * b
    ensures Keep(s, a) == Keep(s, b)
  {
    if s != [] {
      var init, last := s[..|s| - 1], s[|s| - 1];
      assert last in Names(s);
      assert last in a <==> last in Names(s) * a;
      assert last in b <==> last in Names(s) * b;
      forall x | x in Names(init)
        ensures x in a <==> x in b
      {
        assert x in Names(s);
        assert x in Names(s) * a <==> x in Names(s) * b;
      }
      assert Names(init) * a == Names(init) * b;
      KeepAgree(init, a, b);
    }
  }

  lemma {:induction false} KeepNone(s: seq<string>, names: set<string>)
    requires Names(s) !! names
    ensures Keep(s, names) == []
  {
    if s != [] {
      var init, last := s[..|s| - 1], s[|s| - 1];
      assert last in Names(s) && Names(init) <= Names(s);
      KeepNone(init, names);
    }
  }

  lemma DropNames(s: seq<string>, names: set<string>)
    ensures Names(Drop(s, names)) == Names(s) - names
    ensures Distinct(s) ==> Distinct(Drop(s, names))
    ensures Names(s) !! names ==> Drop(s, names) == s
    ensures |Drop(s, names)| <= |s|
  {
    KeepNames(s, Names(s) - names);
  }

  lemma DropConcat(s: seq<string>, t: seq<string>, names: set<string>)
    ensures Drop(s + t, names) == Drop(s, names) + Drop(t, names)
  {
    var all := Names(s + t) - names;
    KeepConcat(s, t, all);
    assert Names(s + t) == Names(s) + Names(t);
    KeepAgree(s, all, Names(s) - names);
    KeepAgree(t, all, Names(t) - names);
  }

  lemma Singleton(x: string)
    requires x != "" && Trimmed(x)
    ensures Clean([x]) && Normalize([x]) == [x] && Names([x]) == {x}
  {
    NormalizeCleans([x]);
  }

  lemma DropOne(x: string, names: set<string>)
    ensures Drop([x], names) == if x in names then [] else [x]
  {
    assert Keep([x][..0], Names([x]) - names) == [];
    assert Names([x]) == {x};
  }

  lemma KeepPush(s: seq<string>, x: string, names: set<string>)
    ensures Keep(s + [x], names) == if x in names then Keep(s, names) + [x] else Keep(s, names)
  {
    assert (s + [x])[..|s + [x]| - 1] == s;
  }

  lemma DropPush(s: seq<string>, x: string, names: set<string>)
    ensures Drop(s + [x], names) == if x in names then Drop(s, names) else Drop(s, names) + [x]
  {
    DropConcat(s, [x], names);
    DropOne(x, names);
  }

  lemma {:induction false} DistinctCount(s: seq<string>)
    ensures |Names(s)| <= |s|
    ensures Distinct(s) ==> |Names(s)| == |s|
  {
    if s != [] {
      var init, last := s[..|s| - 1], s[|s| - 1];
      assert s == init + [last];
      DistinctCount(init);
      assert Names(s) == Names(init) + {last};
    }
  }

  lemma SubsetCount(a: set<string>, b: set<string>)
    requires a <= b
    ensures |a| <= |b|
    decreases a
  {
    if a != {} {
      var x :| x in a;
      SubsetCount(a - {x}, b - {x});
    }
  }

  lemma ConcatDistinct(s: seq<string>, t: seq<string>)
    requires Distinct(s) && Distinct(t) && Names(s) !! Names(t)
    ensures Distinct(s + t)
    ensures Names(s + t) == Names(s) + Names(t)
  {
    forall i, j | 0 <= i < j < |s + t|
      ensures (s + t)[i] != (s + t)[j]
    {
      if i < |s| <= j {
        assert (s + t)[i] in Names(s) && (s + t)[j] in Names(t);
      }
    }
  }

  lemma KeepCleans(s: seq<string>, names: set<string>)
    requires Clean(s)
    ensures Clean(Keep(s, names))
  {
    KeepNames(s, names);
    forall x | x in Keep(s, names)
      ensures x != "" && Trimmed(x)
    {
      assert x in Names(Keep(s, names));
    }
  }

  lemma ConcatCleans(s: seq<string>, t: seq<string>)
    requires Clean(s) && Clean(t) && Names(s) !! Names(t)
    ensures Clean(s + t)
  {
    ConcatDistinct(s, t);
  }

  /** mergeModelNames keeps the base in place and adds what was missing, once. */
  lemma MergeCleans(base: seq<string>, appended: seq<string>)
    ensures Clean(Merge(base, appended))
    ensures Names(Merge(base, appended)) == Names(Normalize(base)) + Names(Normalize(appended))
    ensures Normalize(base) <= Merge(base, appended)
  {
    NormalizeCleans(base);
    NormalizeCleans(appended);
    var b, a := Normalize(base), Normalize(appended);
    DropNames(a, Names(b));
    KeepCleans(a, Names(a) - Names(b));
    ConcatCleans(b, Drop(a, Names(b)));
    ConcatDistinct(b, Drop(a, Names(b)));
  }

  /** subtractModelNames on a clean base. */
  lemma SubtractCleans(base: seq<string>, removed: seq<string>)
    ensures Clean(Subtract(base, removed))
    ensures Names(Subtract(base, removed)) == Names(Normalize(base)) - Names(Normalize(removed))
  {
    NormalizeCleans(base);
    var b := Normalize(base);
    DropNames(b, Names(Normalize(removed)));
    KeepCleans(b, Names(b) - Names(Normalize(removed)));
  }

  /**
   applySelectedModelChanges: the result is the origin without what was only
   removed, then the new names; a name in both selections is kept.
   */
  lemma ApplySelectedMeaning(origin: seq<string>, add: seq<string>, remove: seq<string>)
    ensures Clean(ApplySelected(origin, add, remove))
    ensures Names(ApplySelected(origin, add, remove)) ==
            (Names(Normalize(origin)) - Names(Normalize(remove))) + Names(Normalize(add))
  {
    var a, r := Normalize(add), Normalize(remove);
    NormalizeCleans(add);
    NormalizeCleans(remove);
    NormalizeCleans(a);
    NormalizeCleans(r);
    SubtractCleans(r, a);
    NormalizeCleans(Subtract(r, a));
    MergeCleans(origin, a);
    NormalizeCleans(Merge(origin, a));
    SubtractCleans(Merge(origin, a), Subtract(r, a));
  }
}
