/**
 Adopting what the diff of UpstreamDiff found: the list and the mapping are written back, read
 again and compared with the same upstream list. When this reaches a fixed point in one step,
 and the inputs on which it does not.
 */
module Adoption {
  import opened NameLists
  import opened Text
  import opened UpstreamDiff

  /** What a key may be mapped to: the trimmed targets of the stored keys that trim to it. */
  function Targets(raw: map<string, string>, k: string): set<string> {
    set r | r in raw && TrimSpace(r) == k && TrimSpace(raw[r]) != "" :: TrimSpace(raw[r])
  }

  lemma NormalFormTargets(raw: map<string, string>, m: map<string, string>, k: string)
    requires NormalForm(raw, m)
    ensures k in m <==> k != "" && Targets(raw, k) != {}
    ensures k in m ==> m[k] in Targets(raw, k)
  {
    if k in m {
      var r :| r in raw && TrimSpace(r) == k && TrimSpace(raw[r]) == m[k];
      assert TrimSpace(raw[r]) in Targets(raw, k);
    }
    if k != "" && Targets(raw, k) != {} {
      var t :| t in Targets(raw, k);
      var r :| r in raw && TrimSpace(r) == k && TrimSpace(raw[r]) == t;
    }
  }

  /**
   Writing entries keeps every alias and adds only the entries' own. An alias keeps its target
   while no competing one is stored for it.
   */
  lemma MappingGrows(raw: map<string, string>, entries: map<string, string>, m: map<string, string>,
                     m': map<string, string>)
    requires KeysTrimmed(entries) && NormalForm(raw, m) && NormalForm(entries + raw, m')
    ensures m.Keys <= m'.Keys <= m.Keys + entries.Keys
    ensures forall k :: k in m' && k !in m ==> k in entries && k !in raw && m'[k] == TrimSpace(entries[k])
    ensures forall k :: k in m && Targets(entries + raw, k) <= {m[k]} ==> m'[k] == m[k]
  {
    forall k | k in m
      ensures k in m' && (Targets(entries + raw, k) <= {m[k]} ==> m'[k] == m[k])
    {
      AliasStays(raw, entries, m, m', k);
    }
    forall k | k in m' && k !in m
      ensures k in entries && k !in raw && m'[k] == TrimSpace(entries[k])
    {
      AliasIsNew(raw, entries, m, m', k);
    }
  }

  lemma AliasStays(raw: map<string, string>, entries: map<string, string>, m: map<string, string>,
                   m': map<string, string>, k: string)
    requires NormalForm(raw, m) && NormalForm(entries + raw, m') && k in m
    ensures k in m' && (Targets(entries + raw, k) <= {m[k]} ==> m'[k] == m[k])
  {
    var r :| r in raw && TrimSpace(r) == k && TrimSpace(raw[r]) == m[k];
    assert (entries + raw)[r] == raw[r];
    NormalFormTargets(entries + raw, m', k);
  }

  lemma AliasIsNew(raw: map<string, string>, entries: map<string, string>, m: map<string, string>,
                   m': map<string, string>, k: string)
    requires KeysTrimmed(entries) && NormalForm(raw, m) && NormalForm(entries + raw, m') && k in m' && k !in m
    ensures k in entries && k !in raw && m'[k] == TrimSpace(entries[k])
  {
    var merged := entries + raw;
    var r :| r in merged && TrimSpace(r) == k && TrimSpace(merged[r]) == m'[k];
    TrimSpaceFixes(r);
  }

  /** Without two keys that differ only in white space every alias keeps its target. */
  lemma TargetsKept(raw: map<string, string>, entries: map<string, string>, m: map<string, string>,
                    m': map<string, string>)
    requires Unambiguous(entries + raw) && KeysTrimmed(entries) && NormalForm(raw, m) && NormalForm(entries + raw, m')
    ensures m.Values <= m'.Values && forall k :: k in m ==> k in m' && m'[k] == m[k]
  {
    var merged := entries + raw;
    MappingGrows(raw, entries, m, m');
    forall k | k in m
      ensures m'[k] == m[k]
    {
      var r :| r in raw && TrimSpace(r) == k && TrimSpace(raw[r]) == m[k];
      assert merged[r] == raw[r];
      assert Targets(merged, k) <= {m[k]};
    }
    forall v | v in m.Values
      ensures v in m'.Values
    {
      var k :| k in m && m[k] == v;
      assert k in m';
    }
  }

  lemma NothingWanted(ids: seq<string>, bareOf: map<string, string>, covered: set<string>, ignored: string -> bool)
    requires forall id :: id in ids ==> !Wanted(id, bareOf, covered, ignored)
    ensures WantedIds(ids, bareOf, covered, ignored) == []
  {
    var wanted := WantedIds(ids, bareOf, covered, ignored);
    if wanted != [] {
      WantedMembers(ids, bareOf, covered, ignored, wanted[0]);
    }
  }

  lemma DropAll(s: seq<string>, names: set<string>)
    requires Names(s) <= names
    ensures Drop(s, names) == []
  {
    KeepNone(s, Names(s) - names);
  }

  /** The list after adopting every pending addition, written out and read back. */
  function Adopted(local: seq<string>, add: seq<string>): seq<string> {
    Normalize(ReadList(Join(Merge(local, add), ','), ','))
  }

  /** What a written name is read back as: its trimmed parts, without blanks. */
  function Parts(name: string): seq<string> {
    Normalize(Split(name, ','))
  }

  predicate PartOf(names: seq<string>, x: string) {
    exists a :: a in names && x in Parts(a)
  }

  lemma PartsOfPlain(name: string)
    requires name != "" && Trimmed(name) && ',' !in name
    ensures Parts(name) == [name]
  {
    SplitPart(name, ',');
    assert Clean([name]);
    NormalizeCleans([name]);
  }

  lemma PartIsPlain(names: seq<string>, x: string)
    requires PartOf(names, x)
    ensures x != "" && Trimmed(x) && ',' !in x
  {
    var a :| a in names && x in Parts(a);
    var parts := Split(a, ',');
    NormalizeCleans(parts);
    NormalizeNames(parts, x);
    var p :| p in parts && TrimSpace(p) == x;
    SplitParts(a, ',');
    if ',' in x {
      TrimSpaceSubset(p, ',');
    }
  }

  /** The parts of a joined list are the parts of its members. */
  lemma {:induction false} JoinedParts(names: seq<string>, p: string)
    requires names != []
    ensures p in Split(Join(names, ','), ',') <==> exists a :: a in names && p in Split(a, ',')
  {
    if |names| > 1 {
      var rest := names[1..];
      assert names == [names[0]] + rest;
      JoinConcat([names[0]], rest, ',');
      SplitConcat(names[0], Join(rest, ','), ',');
      JoinedParts(rest, p);
      assert p in Split(names[0], ',') ==> names[0] in names;
    }
  }

  lemma ReadBack(names: seq<string>, x: string)
    ensures x in Normalize(ReadList(Join(names, ','), ',')) <==> PartOf(names, x)
  {
    var text := Join(names, ',');
    ReadNormalized(text, ',');
    NormalizeNames(Split(text, ','), x);
    if names == [] {
      assert Split("", ',') == [""] && TrimSpace("") == "";
    } else {
      forall a | a in names
        ensures x in Parts(a) <==> x != "" && exists p :: p in Split(a, ',') && TrimSpace(p) == x
      {
        NormalizeNames(Split(a, ','), x);
      }
      forall p
        ensures p in Split(text, ',') <==> exists a :: a in names && p in Split(a, ',')
      {
        JoinedParts(names, p);
      }
    }
  }

  /** What is read back after an adoption: the list as it was, and every part of what was added. */
  lemma AdoptedExactly(local: seq<string>, add: seq<string>, x: string)
    requires Clean(local) && SepFree(local, ',') && Clean(add)
    ensures x in Adopted(local, add) <==> x in local || PartOf(add, x)
  {
    NormalizeCleans(local);
    NormalizeCleans(add);
    var merged := Merge(local, add);
    MergeCleans(local, add);
    ReadBack(merged, x);
    forall a | a in local
      ensures Parts(a) == [a]
    {
      PartsOfPlain(a);
    }
    if PartOf(add, x) {
      var a :| a in add && x in Parts(a);
      assert a in Names(merged);
    }
    if PartOf(merged, x) {
      var a :| a in merged && x in Parts(a);
      assert a in Names(merged);
    }
    if x in local {
      assert x in Names(merged) && x in Parts(x);
    }
  }

  /** Of what is written, exactly the names without a comma are among those read back. */
  lemma AdoptedNames(local: seq<string>, add: seq<string>, name: string)
    requires Clean(local) && SepFree(local, ',') && Clean(add)
    ensures name in Adopted(local, add) ==> ',' !in name
    ensures (name in local || name in add) && ',' !in name ==> name in Adopted(local, add)
  {
    AdoptedExactly(local, add, name);
    if PartOf(add, name) {
      PartIsPlain(add, name);
    }
    if name in add && ',' !in name {
      PartsOfPlain(name);
    }
  }

  /** Where a comma does no harm: the name is served through a mapping entry of its own. */
  predicate CommaSafe(diff: Diff, written: map<string, string>, raw: map<string, string>) {
    forall name :: name in diff.add && ',' in name ==> name in written && name !in raw
  }

  /** The entries that reach the column: all of them, or none when the column does not parse. */
  predicate WrittenFrom(written: map<string, string>, entries: map<string, string>) {
    forall k :: k in written ==> k in entries && written[k] == entries[k]
  }

  /** A stored state: normalized lists without commas, as they are read, and a mapping with its normal form. */
  predicate Readable(local: seq<string>, upstream: seq<string>, raw: map<string, string>, m: map<string, string>) {
    Clean(local) && SepFree(local, ',') && Clean(upstream) && NormalForm(raw, m)
  }

  lemma SafeIsCovered(local: seq<string>, upstream: seq<string>, ignored: string -> bool, raw: map<string, string>,
                      written: map<string, string>, m: map<string, string>, m': map<string, string>, strip: bool,
                      id: string)
    requires Readable(local, upstream, raw, m) && id in upstream
    requires var diff := DiffOf(local, upstream, ignored, m, strip);
             WrittenFrom(written, diff.entries) && Unambiguous(written + raw) && NormalForm(written + raw, m') &&
               CommaSafe(diff, written, raw)
    ensures var diff := DiffOf(local, upstream, ignored, m, strip);
            !Wanted(id, BareNames(upstream, strip), Covered(Adopted(local, diff.add), m'), ignored)
  {
    var diff, bareOf := DiffOf(local, upstream, ignored, m, strip), BareNames(upstream, strip);
    var name := Candidate(bareOf, id);
    AddIsNew(local, upstream, ignored, m, strip);
    EntriesTrimmed(local, upstream, ignored, m, strip);
    MappingGrows(raw, written, m, m');
    TargetsKept(raw, written, m, m');
    if !Wanted(id, bareOf, Covered(local, m), ignored) {
      AdoptedKeeps(local, diff.add);
      assert Covered(local, m) <= Covered(Adopted(local, diff.add), m');
    } else {
      WantedIsPending(local, upstream, ignored, m, strip, id);
      AdoptedNames(local, diff.add, name);
      if ',' in name {
        EntriesNameTheirId(local, upstream, ignored, m, strip, name);
        EntryTarget(local, upstream, ignored, m, strip, name);
        TrimSpaceFixes(name);
        assert name in m' && m'[name] == id;
      }
    }
  }

  /** A list without commas is read back whole, whatever is adopted with it. */
  lemma AdoptedKeeps(local: seq<string>, add: seq<string>)
    requires Clean(local) && SepFree(local, ',') && Clean(add) && Names(local) !! Names(add)
    ensures Names(local) <= Names(Adopted(local, add))
  {
    forall name | name in local
      ensures name in Adopted(local, add)
    {
      AdoptedNames(local, add, name);
    }
  }

  lemma EntriesTrimmed(local: seq<string>, upstream: seq<string>, ignored: string -> bool, mapping: map<string, string>,
                       strip: bool)
    requires Clean(upstream)
    ensures KeysTrimmed(DiffOf(local, upstream, ignored, mapping, strip).entries)
  {
    AddIsNew(local, upstream, ignored, mapping, strip);
    EntriesAreAdded(local, upstream, ignored, mapping, strip);
    var diff := DiffOf(local, upstream, ignored, mapping, strip);
    forall k | k in diff.entries
      ensures Trimmed(k)
    {
      assert k in diff.add;
    }
  }

  lemma UnsafeIsPending(local: seq<string>, upstream: seq<string>, ignored: string -> bool, raw: map<string, string>,
                        written: map<string, string>, m: map<string, string>, m': map<string, string>, strip: bool,
                        name: string)
    requires Readable(local, upstream, raw, m)
    requires var diff := DiffOf(local, upstream, ignored, m, strip);
             WrittenFrom(written, diff.entries) && Unambiguous(written + raw) && NormalForm(written + raw, m') &&
             name in diff.add && ',' in name && (name !in written || name in raw)
    ensures var diff := DiffOf(local, upstream, ignored, m, strip);
            name in DiffOf(Adopted(local, diff.add), upstream, ignored, m', strip).add
  {
    var diff, bareOf := DiffOf(local, upstream, ignored, m, strip), BareNames(upstream, strip);
    AddIsNew(local, upstream, ignored, m, strip);
    EntriesTrimmed(local, upstream, ignored, m, strip);
    MappingGrows(raw, written, m, m');
    TargetsKept(raw, written, m, m');
    AddExactly(local, upstream, ignored, m, strip, name);
    var id :| id in upstream && Candidate(bareOf, id) == name && Wanted(id, bareOf, Covered(local, m), ignored);
    CandidateKeepsComma(upstream, strip, id);
    AdoptedNames(local, diff.add, name);
    AdoptedNames(local, diff.add, id);
    forall k | k in m'
      ensures m'[k] != name && m'[k] != id
    {
      if k in m {
        assert m[k] in m.Values;
      } else {
        EntryTarget(local, upstream, ignored, m, strip, k);
        EntryElsewhere(upstream, strip, id, diff.entries[k]);
      }
    }
    assert id !in m'.Values && name !in m'.Values;
    WantedIsPending(Adopted(local, diff.add), upstream, ignored, m', strip, id);
  }

  lemma WantedIsPending(local: seq<string>, upstream: seq<string>, ignored: string -> bool, m: map<string, string>,
                        strip: bool, id: string)
    requires Clean(upstream) && id in upstream && Wanted(id, BareNames(upstream, strip), Covered(local, m), ignored)
    ensures Candidate(BareNames(upstream, strip), id) in DiffOf(local, upstream, ignored, m, strip).add
  {
    AddExactly(local, upstream, ignored, m, strip, Candidate(BareNames(upstream, strip), id));
  }

  /** An entry for another candidate points neither at this id nor at this candidate. */
  lemma EntryElsewhere(upstream: seq<string>, strip: bool, id: string, target: string)
    requires var bareOf := BareNames(upstream, strip);
             id in upstream && target in upstream && target in bareOf && bareOf[target] != Candidate(bareOf, id)
    ensures target != id && target != Candidate(BareNames(upstream, strip), id)
  {}

  /** The target of an entry is an id that was stripped to its key. */
  lemma EntryTarget(local: seq<string>, upstream: seq<string>, ignored: string -> bool, mapping: map<string, string>,
                    strip: bool, k: string)
    requires Clean(upstream) && k in DiffOf(local, upstream, ignored, mapping, strip).entries
    ensures var id, bareOf := DiffOf(local, upstream, ignored, mapping, strip).entries[k], BareNames(upstream, strip);
            id in bareOf && bareOf[id] == k && id in upstream && TrimSpace(id) == id
  {
    EntriesNameTheirId(local, upstream, ignored, mapping, strip, k);
    TrimSpaceFixes(DiffOf(local, upstream, ignored, mapping, strip).entries[k]);
  }

  lemma CandidateKeepsComma(upstream: seq<string>, strip: bool, id: string)
    requires id in upstream && ',' in Candidate(BareNames(upstream, strip), id)
    ensures ',' in id
  {
    if Candidate(BareNames(upstream, strip), id) != id {
      TrimSpaceSubset(id[LastSlash(id) + 1..], ',');
    }
  }

  /**
   While no two mapping keys differ only in white space, nothing is pending to add after an
   adoption exactly when every name with a comma is served through a mapping entry of its own.
   */
  lemma SettlesWithoutClashes(local: seq<string>, upstream: seq<string>, ignored: string -> bool,
                              raw: map<string, string>, written: map<string, string>, m: map<string, string>,
                              m': map<string, string>, strip: bool)
    requires Readable(local, upstream, raw, m)
    requires var diff := DiffOf(local, upstream, ignored, m, strip);
             WrittenFrom(written, diff.entries) && Unambiguous(written + raw) && NormalForm(written + raw, m')
    ensures var diff := DiffOf(local, upstream, ignored, m, strip);
            DiffOf(Adopted(local, diff.add), upstream, ignored, m', strip).add == [] <==> CommaSafe(diff, written, raw)
  {
    var diff, bareOf := DiffOf(local, upstream, ignored, m, strip), BareNames(upstream, strip);
    var local' := Adopted(local, diff.add);
    if CommaSafe(diff, written, raw) {
      forall id | id in upstream
        ensures !Wanted(id, bareOf, Covered(local', m'), ignored)
      {
        SafeIsCovered(local, upstream, ignored, raw, written, m, m', strip, id);
      }
      NothingWanted(upstream, bareOf, Covered(local', m'), ignored);
      AddIsCandidates(local', upstream, ignored, m', strip);
    } else {
      var name :| name in diff.add && ',' in name && (name !in written || name in raw);
      UnsafeIsPending(local, upstream, ignored, raw, written, m, m', strip, name);
    }
  }

  // ---------------------------------------------------------------- exactly when additions settle

  /** Whichever of its competing targets the key ends up with, it is one of the names. */
  predicate Pinned(raw: map<string, string>, k: string, names: set<string>) {
    k != "" && Targets(raw, k) != {} && Targets(raw, k) <= names
  }

  /** A target for the key outside the names, where there is one. */
  ghost function Other(raw: map<string, string>, k: string, names: set<string>): (t: string)
    requires Targets(raw, k) != {}
    ensures t in Targets(raw, k) && (t in names ==> Targets(raw, k) <= names)
  {
    if Targets(raw, k) <= names then var t :| t in Targets(raw, k); t
    else var t :| t in Targets(raw, k) && t !in names; t
  }

  /** A normal form that avoids the names where it can. */
  ghost function Avoiding(raw: map<string, string>, names: set<string>): map<string, string> {
    map k | k in (set r | r in raw && TrimSpace(r) != "" && TrimSpace(raw[r]) != "" :: TrimSpace(r)) &&
      Targets(raw, k) != {} ::
      Other(raw, k, names)
  }

  lemma AvoidingIsNormal(raw: map<string, string>, names: set<string>)
    ensures NormalForm(raw, Avoiding(raw, names))
    ensures forall k :: k in Avoiding(raw, names) && Avoiding(raw, names)[k] in names ==> Pinned(raw, k, names)
  {
    var m := Avoiding(raw, names);
    forall k | k in m
      ensures k != "" && m[k] != "" && exists r :: r in raw && TrimSpace(r) == k && TrimSpace(raw[r]) == m[k]
    {
      assert m[k] in Targets(raw, k);
    }
    forall r | r in raw && TrimSpace(r) != "" && TrimSpace(raw[r]) != ""
      ensures TrimSpace(r) in m
    {
      assert TrimSpace(raw[r]) in Targets(raw, TrimSpace(r));
    }
  }

  /** The id is ignored, or listed under some spelling, or some key is bound to point at it. */
  ghost predicate Served(id: string, bareOf: map<string, string>, local: seq<string>, raw: map<string, string>,
                         ignored: string -> bool)
  {
    var candidate := Candidate(bareOf, id);
    || ignored(candidate) || (candidate != id && ignored(id))
    || candidate in local || id in local
    || exists k :: Pinned(raw, k, {id, candidate})
  }

  /** A served id is not wanted whatever normal form the mapping takes; any other is wanted under some form. */
  lemma ServedExactly(id: string, bareOf: map<string, string>, local: seq<string>, raw: map<string, string>,
                      ignored: string -> bool)
    ensures Served(id, bareOf, local, raw, ignored) ==>
              forall m :: NormalForm(raw, m) ==> !Wanted(id, bareOf, Covered(local, m), ignored)
    ensures !Served(id, bareOf, local, raw, ignored) ==>
              NormalForm(raw, Avoiding(raw, {id, Candidate(bareOf, id)})) &&
              Wanted(id, bareOf, Covered(local, Avoiding(raw, {id, Candidate(bareOf, id)})), ignored)
  {
    var names := {id, Candidate(bareOf, id)};
    if k :| Pinned(raw, k, names) {
      forall m | NormalForm(raw, m)
        ensures m.Values * names != {}
      {
        NormalFormTargets(raw, m, k);
        assert m[k] in m.Values * names;
      }
    }
    AvoidingIsNormal(raw, names);
  }

  ghost predicate AdditionsSettle(local: seq<string>, upstream: seq<string>, ignored: string -> bool,
                                  raw: map<string, string>, strip: bool)
  {
    forall m :: NormalForm(raw, m) ==> DiffOf(local, upstream, ignored, m, strip).add == []
  }

  /** Nothing is pending to add, whatever normal form the mapping takes, exactly when every listed id is served. */
  lemma AdditionsSettleExactly(local: seq<string>, upstream: seq<string>, ignored: string -> bool,
                               raw: map<string, string>, strip: bool)
    requires Clean(upstream)
    ensures AdditionsSettle(local, upstream, ignored, raw, strip) <==>
            forall id :: id in upstream ==> Served(id, BareNames(upstream, strip), local, raw, ignored)
  {
    var bareOf := BareNames(upstream, strip);
    if forall id :: id in upstream ==> Served(id, bareOf, local, raw, ignored) {
      forall m | NormalForm(raw, m)
        ensures DiffOf(local, upstream, ignored, m, strip).add == []
      {
        forall id | id in upstream
          ensures !Wanted(id, bareOf, Covered(local, m), ignored)
        {
          ServedExactly(id, bareOf, local, raw, ignored);
        }
        NothingWanted(upstream, bareOf, Covered(local, m), ignored);
        AddIsCandidates(local, upstream, ignored, m, strip);
      }
    } else {
      var id :| id in upstream && !Served(id, bareOf, local, raw, ignored);
      ServedExactly(id, bareOf, local, raw, ignored);
      WantedIsPending(local, upstream, ignored, Avoiding(raw, {id, Candidate(bareOf, id)}), strip, id);
    }
  }

  // ---------------------------------------------------------------- exactly when removals settle

  /** What is read back starts with the list as it was, whatever was adopted. */
  lemma AdoptedExtends(local: seq<string>, add: seq<string>)
    requires Clean(local) && SepFree(local, ',') && Clean(add) && Names(local) !! Names(add)
    ensures Clean(Adopted(local, add)) && local <= Adopted(local, add)
  {
    NormalizeCleans(local);
    NormalizeCleans(add);
    DropNames(add, Names(local));
    assert Merge(local, add) == local + add;
    var text := Join(local + add, ',');
    NormalizeCleans(ReadList(text, ','));
    ReadNormalized(text, ',');
    if local != [] {
      var rest := SplitAfter(local, add);
      TrimAllConcat(local, rest);
      TrimAllNonBlank(local);
      UniqPrefix(local, TrimAll(rest));
      UniqDistinct(local);
    }
  }

  lemma SplitAfter(local: seq<string>, add: seq<string>) returns (rest: seq<string>)
    requires local != [] && SepFree(local, ',')
    ensures Split(Join(local + add, ','), ',') == local + rest
  {
    SplitJoin(local, ',');
    if add == [] {
      rest := [];
      assert local + add == local;
    } else {
      rest := Split(Join(add, ','), ',');
      JoinConcat(local, add, ',');
      SplitConcat(Join(local, ','), Join(add, ','), ',');
    }
  }

  /** Everything that keeps a served name from being removed. */
  function Kept(upstream: seq<string>, m: map<string, string>, strip: bool): set<string> {
    m.Keys + Names(upstream) + BareNames(upstream, strip).Values
  }

  lemma RemoveIsDrop(local: seq<string>, upstream: seq<string>, ignored: string -> bool, m: map<string, string>,
                     strip: bool)
    requires Clean(local)
    ensures DiffOf(local, upstream, ignored, m, strip).remove == Drop(local, Kept(upstream, m, strip))
  {
    KeepCleans(local, Names(local) - Kept(upstream, m, strip));
    NormalizeCleans(Drop(local, Kept(upstream, m, strip)));
  }

  /** An adoption neither adds to what is kept nor takes from it: a new alias is a listed name already. */
  lemma KeptAgree(local: seq<string>, upstream: seq<string>, ignored: string -> bool,
                  raw: map<string, string>, written: map<string, string>,
                  m: map<string, string>, m': map<string, string>, strip: bool)
    requires Readable(local, upstream, raw, m)
    requires WrittenFrom(written, DiffOf(local, upstream, ignored, m, strip).entries) && NormalForm(written + raw, m')
    ensures Kept(upstream, m', strip) == Kept(upstream, m, strip)
  {
    EntriesTrimmed(local, upstream, ignored, m, strip);
    MappingGrows(raw, written, m, m');
    EntriesListed(local, upstream, ignored, m, strip);
    KeptGrows(upstream, m, m', written.Keys, strip);
  }

  lemma EntriesListed(local: seq<string>, upstream: seq<string>, ignored: string -> bool, m: map<string, string>,
                      strip: bool)
    requires Clean(upstream)
    ensures DiffOf(local, upstream, ignored, m, strip).entries.Keys <= BareNames(upstream, strip).Values
  {
    forall k | k in DiffOf(local, upstream, ignored, m, strip).entries
      ensures k in BareNames(upstream, strip).Values
    {
      EntryTarget(local, upstream, ignored, m, strip, k);
    }
  }

  lemma KeptGrows(upstream: seq<string>, m: map<string, string>, m': map<string, string>, added: set<string>,
                  strip: bool)
    requires m.Keys <= m'.Keys <= m.Keys + added && added <= BareNames(upstream, strip).Values
    ensures Kept(upstream, m', strip) == Kept(upstream, m, strip)
  {}

  /**
   The pending removals are the same after an adoption, in whatever order the mapping is read,
   exactly when every part of an added name is on the list, listed by the upstream or an alias.
   */
  lemma RemovalsSettleExactly(local: seq<string>, upstream: seq<string>, ignored: string -> bool,
                              raw: map<string, string>, written: map<string, string>,
                              m: map<string, string>, m': map<string, string>, strip: bool)
    requires Readable(local, upstream, raw, m)
    requires WrittenFrom(written, DiffOf(local, upstream, ignored, m, strip).entries) && NormalForm(written + raw, m')
    ensures var diff := DiffOf(local, upstream, ignored, m, strip);
            DiffOf(Adopted(local, diff.add), upstream, ignored, m', strip).remove == diff.remove <==>
            PartsKept(local, diff.add, upstream, m, strip)
  {
    var diff, kept := DiffOf(local, upstream, ignored, m, strip), Kept(upstream, m, strip);
    var local' := Adopted(local, diff.add);
    AddIsNew(local, upstream, ignored, m, strip);
    AdoptedExtends(local, diff.add);
    var extra := local'[|local|..];
    assert local' == local + extra;
    RemoveIsDrop(local, upstream, ignored, m, strip);
    RemoveIsDrop(local', upstream, ignored, m', strip);
    KeptAgree(local, upstream, ignored, raw, written, m, m', strip);
    DropSettles(local, extra, kept);
    forall x
      ensures x in local' <==> x in local || PartOf(diff.add, x)
    {
      AdoptedExactly(local, diff.add, x);
    }
  }

  /** Every part of an added name is on the list already, or kept there. */
  ghost predicate PartsKept(local: seq<string>, add: seq<string>, upstream: seq<string>, m: map<string, string>,
                            strip: bool)
  {
    forall x :: PartOf(add, x) && x !in local ==> x in Kept(upstream, m, strip)
  }

  /** Nothing more is dropped from a longer list exactly when all that is new in it is kept. */
  lemma DropSettles(local: seq<string>, extra: seq<string>, kept: set<string>)
    requires Distinct(local + extra)
    ensures Drop(local + extra, kept) == Drop(local, kept) <==>
            forall name :: name in local + extra && name !in local ==> name in kept
  {
    DropConcat(local, extra, kept);
    ExtraNames(local, extra);
    DropNames(extra, kept);
    if Names(extra) <= kept {
      DropAll(extra, kept);
      assert Drop(local, kept) + [] == Drop(local, kept);
    } else {
      var name :| name in Names(extra) && name !in kept;
      assert name in Names(Drop(extra, kept));
      assert name in extra && name in local + extra;
    }
  }

  lemma ExtraNames(local: seq<string>, extra: seq<string>)
    requires Distinct(local + extra)
    ensures forall name :: name in extra <==> name in local + extra && name !in local
  {
    forall name | name in extra
      ensures name !in local
    {
      var j :| 0 <= j < |extra| && extra[j] == name;
      forall i | 0 <= i < |local|
        ensures local[i] != name
      {
        assert (local + extra)[i] == local[i] && (local + extra)[|local| + j] == name;
      }
    }
  }

  // ---------------------------------------------------------------- one adoption

  /** The id is ignored, or its name or its candidate is on the list or a part of what is added. */
  predicate Reached(id: string, bareOf: map<string, string>, local: seq<string>, add: seq<string>,
                    ignored: string -> bool)
  {
    var candidate := Candidate(bareOf, id);
    || ignored(candidate) || (candidate != id && ignored(id))
    || candidate in local || id in local || PartOf(add, candidate) || PartOf(add, id)
  }

  /** Every other listed id is the target some mapping key cannot avoid. */
  ghost predicate RestPinned(local: seq<string>, add: seq<string>, upstream: seq<string>, ignored: string -> bool,
                             raw: map<string, string>, strip: bool)
  {
    var bareOf := BareNames(upstream, strip);
    forall id :: id in upstream && !Reached(id, bareOf, local, add, ignored) ==>
      exists k :: Pinned(raw, k, {id, Candidate(bareOf, id)})
  }

  /** An id an adoption does not reach was covered by a mapping target, or is pending under a name with a comma. */
  lemma UnreachedIds(local: seq<string>, upstream: seq<string>, ignored: string -> bool, m: map<string, string>,
                     strip: bool, id: string)
    requires Clean(local) && Clean(upstream) && id in upstream
    ensures var diff, bareOf := DiffOf(local, upstream, ignored, m, strip), BareNames(upstream, strip);
            var candidate := Candidate(bareOf, id);
            Reached(id, bareOf, local, diff.add, ignored) || id in m.Values || candidate in m.Values ||
            (candidate in diff.add && ',' in candidate)
  {
    var diff, bareOf := DiffOf(local, upstream, ignored, m, strip), BareNames(upstream, strip);
    if Wanted(id, bareOf, Covered(local, m), ignored) {
      WantedIsPending(local, upstream, ignored, m, strip, id);
      AddIsNew(local, upstream, ignored, m, strip);
      var candidate := Candidate(bareOf, id);
      if ',' !in candidate {
        PartsOfPlain(candidate);
        assert PartOf(diff.add, candidate);
      }
    }
  }

  lemma AdditionsAfterAdoption(local: seq<string>, upstream: seq<string>, ignored: string -> bool,
                               raw: map<string, string>, add: seq<string>, strip: bool)
    requires Clean(local) && SepFree(local, ',') && Clean(upstream) && Clean(add)
    ensures AdditionsSettle(Adopted(local, add), upstream, ignored, raw, strip) <==>
            RestPinned(local, add, upstream, ignored, raw, strip)
  {
    var local', bareOf := Adopted(local, add), BareNames(upstream, strip);
    AdditionsSettleExactly(local', upstream, ignored, raw, strip);
    forall id | id in upstream
      ensures Served(id, bareOf, local', raw, ignored) <==>
              Reached(id, bareOf, local, add, ignored) || exists k :: Pinned(raw, k, {id, Candidate(bareOf, id)})
    {
      AdoptedExactly(local, add, id);
      AdoptedExactly(local, add, Candidate(bareOf, id));
    }
  }

  /** The pending removals are what they were, in whatever order the mapping is read. */
  ghost predicate RemovalsSettle(local: seq<string>, upstream: seq<string>, ignored: string -> bool,
                                 raw: map<string, string>, strip: bool, remove: seq<string>)
  {
    forall m :: NormalForm(raw, m) ==> DiffOf(local, upstream, ignored, m, strip).remove == remove
  }

  /**
   One adoption: write back the list with every pending addition and the mapping with the
   pending entries, read both again and diff against the same upstream list, in whatever order
   the mapping is read. Nothing is pending to add exactly when every listed id that the list and
   the added parts do not reach is the target a mapping key cannot avoid; and the pending
   removals are the same as before exactly when every part of an added name stays.
   */
  lemma OneAdoptionSettles(local: seq<string>, upstream: seq<string>, ignored: string -> bool,
                           raw: map<string, string>, written: map<string, string>, m: map<string, string>, strip: bool)
    requires Readable(local, upstream, raw, m) &&
             WrittenFrom(written, DiffOf(local, upstream, ignored, m, strip).entries)
    ensures var diff := DiffOf(local, upstream, ignored, m, strip);
            var local' := Adopted(local, diff.add);
            && (AdditionsSettle(local', upstream, ignored, written + raw, strip) <==>
                RestPinned(local, diff.add, upstream, ignored, written + raw, strip))
            && (RemovalsSettle(local', upstream, ignored, written + raw, strip, diff.remove) <==>
                PartsKept(local, diff.add, upstream, m, strip))
  {
    var diff := DiffOf(local, upstream, ignored, m, strip);
    AddIsNew(local, upstream, ignored, m, strip);
    AdditionsAfterAdoption(local, upstream, ignored, written + raw, diff.add, strip);
    RemovalsAfterAdoption(local, upstream, ignored, raw, written, m, strip);
  }

  lemma RemovalsAfterAdoption(local: seq<string>, upstream: seq<string>, ignored: string -> bool,
                              raw: map<string, string>, written: map<string, string>, m: map<string, string>,
                              strip: bool)
    requires Readable(local, upstream, raw, m) &&
             WrittenFrom(written, DiffOf(local, upstream, ignored, m, strip).entries)
    ensures var diff := DiffOf(local, upstream, ignored, m, strip);
            RemovalsSettle(Adopted(local, diff.add), upstream, ignored, written + raw, strip, diff.remove) <==>
            PartsKept(local, diff.add, upstream, m, strip)
  {
    forall m' | NormalForm(written + raw, m')
      ensures var diff := DiffOf(local, upstream, ignored, m, strip);
              DiffOf(Adopted(local, diff.add), upstream, ignored, m', strip).remove == diff.remove <==>
              PartsKept(local, diff.add, upstream, m, strip)
    {
      RemovalsSettleExactly(local, upstream, ignored, raw, written, m, m', strip);
    }
    AvoidingIsNormal(written + raw, {});
  }

  /**
   The fixed point: without commas in what is added, the pending removals stay as they were; and
   nothing is pending to add while no two mapping keys differ only in white space.
   */
  lemma FixedPoint(local: seq<string>, upstream: seq<string>, ignored: string -> bool,
                   raw: map<string, string>, written: map<string, string>, m: map<string, string>, strip: bool)
    requires Readable(local, upstream, raw, m)
    requires var diff := DiffOf(local, upstream, ignored, m, strip);
             WrittenFrom(written, diff.entries) && SepFree(diff.add, ',')
    ensures var diff := DiffOf(local, upstream, ignored, m, strip);
            var local' := Adopted(local, diff.add);
            && RemovalsSettle(local', upstream, ignored, written + raw, strip, diff.remove)
            && (Unambiguous(written + raw) ==> AdditionsSettle(local', upstream, ignored, written + raw, strip))
  {
    var diff := DiffOf(local, upstream, ignored, m, strip);
    PlainPartsKept(local, upstream, ignored, m, strip);
    RemovalsAfterAdoption(local, upstream, ignored, raw, written, m, strip);
    if Unambiguous(written + raw) {
      assert CommaSafe(diff, written, raw);
      forall m' | NormalForm(written + raw, m')
        ensures DiffOf(Adopted(local, diff.add), upstream, ignored, m', strip).add == []
      {
        SettlesWithoutClashes(local, upstream, ignored, raw, written, m, m', strip);
      }
    }
  }

  /** A pending name without a comma is its own only part, and it is listed. */
  lemma PlainPartsKept(local: seq<string>, upstream: seq<string>, ignored: string -> bool, m: map<string, string>,
                       strip: bool)
    requires Clean(upstream) && SepFree(DiffOf(local, upstream, ignored, m, strip).add, ',')
    ensures PartsKept(local, DiffOf(local, upstream, ignored, m, strip).add, upstream, m, strip)
  {
    var add, bareOf := DiffOf(local, upstream, ignored, m, strip).add, BareNames(upstream, strip);
    AddIsNew(local, upstream, ignored, m, strip);
    forall x | PartOf(add, x) && x !in local
      ensures x in Kept(upstream, m, strip)
    {
      var a :| a in add && x in Parts(a);
      PartsOfPlain(a);
      AddExactly(local, upstream, ignored, m, strip, a);
      var id :| id in upstream && Candidate(bareOf, id) == a;
    }
  }

  // ---------------------------------------------------------------- inputs that never settle

  lemma UnservedIsPending(local: seq<string>, id: string, ignored: string -> bool)
    requires id != "" && Trimmed(id) && id !in local && !ignored(id)
    ensures DiffOf(local, [id], ignored, map[], false).add == [id]
  {
    Singleton(id);
    var none: map<string, string> := map[];
    assert id !in Covered(local, none);
    assert WantedIds([id][..0], none, Covered(local, none), ignored) == [];
    assert WantedOf(local, [id], ignored, none, false) == [id];
    AddIsCandidates(local, [id], ignored, none, false);
  }

  lemma MergeIntoNothing(x: string)
    requires x != "" && Trimmed(x)
    ensures Merge([], [x]) == [x]
  {
    Singleton(x);
    NormalizeCleans([]);
    DropNames([x], Names([]));
  }

  lemma CommaReadsAsTwo()
    ensures Normalize(ReadList("a,b", ',')) == ["a", "b"]
  {
    assert ["a", "b"][1..] == ["b"];
    assert Join(["a", "b"], ',') == "a,b";
    StorageRoundTrip(["a", "b"], ',');
    assert Clean(["a", "b"]);
    NormalizeCleans(["a", "b"]);
  }

  /** A listed id with a comma is adopted, read back as two names, and pending again. */
  lemma CommaNeverSettles(ignored: string -> bool)
    requires !ignored("a,b")
    ensures var diff := DiffOf([], ["a,b"], ignored, map[], false);
            diff.add == ["a,b"] && DiffOf(Adopted([], diff.add), ["a,b"], ignored, map[], false).add == ["a,b"]
  {
    UnservedIsPending([], "a,b", ignored);
    UnservedIsPending(["a", "b"], "a,b", ignored);
    MergeIntoNothing("a,b");
    CommaReadsAsTwo();
  }

  lemma StrippedPair(u: string, t: string)
    requires Clean([u, t]) && Bare(u) !in {"", u, t} && Bare(t) == ""
    ensures Candidate(Stripped([u, t]), u) == Bare(u) && Candidate(Stripped([u, t]), t) == t
  {
    var ids := [u, t];
    StrippedExactly(ids, u);
    StrippedExactly(ids, t);
  }

  lemma OneValue(k: string, v: string)
    ensures map[k := v].Values == {v}
  {
    var m := map[k := v];
    assert m[k] == v;
    assert v in m.Values;
  }

  lemma PaddedNormalForms(k: string, x: string, u: string, t: string)
    requires TrimSpace(k) == x && k != x && x != "" && u != "" && Trimmed(u) && t != "" && Trimmed(t)
    ensures NormalForm(map[k := t], map[x := t])
    ensures NormalForm(map[x := u] + map[k := t], map[x := u])
  {
    TrimSpaceTrims(k);
    TrimSpaceFixes(t);
    TrimSpaceFixes(u);
    assert k in map[k := t] && x in map[x := u] + map[k := t];
  }

  /**
   A stored key k that is only x once trimmed: an upstream that lists its target t and
   a prefixed u with bare name x leads to x being written beside k, and from then on
   t may stop being covered, so that it is pending after all.
   */
  lemma PaddedKeyUnsettles(k: string, x: string, u: string, t: string, ignored: string -> bool)
    requires TrimSpace(k) == x && k != x && Clean([u, t]) && Bare(u) == x && x !in {"", u, t} && Bare(t) == ""
    requires !ignored(x) && !ignored(u) && !ignored(t)
    ensures NormalForm(map[k := t], map[x := t]) && NormalForm(map[x := u] + map[k := t], map[x := u])
    ensures x in DiffOf([], [u, t], ignored, map[x := t], true).add
    ensures t !in DiffOf([], [u, t], ignored, map[x := t], true).add
    ensures t in DiffOf([x], [u, t], ignored, map[x := u], true).add
  {
    PaddedNormalForms(k, x, u, t);
    PaddedBefore(x, u, t, ignored);
    PaddedAfter(x, u, t, ignored);
  }

  lemma PaddedBefore(x: string, u: string, t: string, ignored: string -> bool)
    requires Clean([u, t]) && Bare(u) == x && x !in {"", u, t} && Bare(t) == "" && !ignored(x) && !ignored(u)
    ensures x in DiffOf([], [u, t], ignored, map[x := t], true).add
    ensures t !in DiffOf([], [u, t], ignored, map[x := t], true).add
  {
    StrippedPair(u, t);
    var m := map[x := t];
    OneValue(x, t);
    assert u != t by { assert [u, t][0] != [u, t][1]; }
    WantedIsAdded([], [u, t], ignored, m, u);
    AddIsNew([], [u, t], ignored, m, true);
    assert t in Covered([], m);
  }

  lemma PaddedAfter(x: string, u: string, t: string, ignored: string -> bool)
    requires Clean([u, t]) && Bare(u) == x && x !in {"", u, t} && Bare(t) == "" && !ignored(t)
    ensures t in DiffOf([x], [u, t], ignored, map[x := u], true).add
  {
    StrippedPair(u, t);
    var m := map[x := u];
    OneValue(x, u);
    assert u != t by { assert [u, t][0] != [u, t][1]; }
    WantedIsAdded([x], [u, t], ignored, m, t);
  }

  lemma WantedIsAdded(local: seq<string>, ids: seq<string>, ignored: string -> bool, m: map<string, string>, id: string)
    requires Clean(ids) && id in ids && Wanted(id, Stripped(ids), Covered(local, m), ignored)
    ensures Candidate(Stripped(ids), id) in DiffOf(local, ids, ignored, m, true).add
  {
    AddExactly(local, ids, ignored, m, true, Candidate(Stripped(ids), id));
  }

  lemma BareIsOther(u: string)
    requires Bare(u) != ""
    ensures Bare(u) != u
  {
    var suffix := u[LastSlash(u) + 1..];
    if '/' in Bare(u) {
      TrimSpaceSubset(suffix, '/');
    }
  }

  lemma OneBare(u: string)
    requires Clean([u]) && Bare(u) != ""
    ensures var bareOf := BareNames([u], true);
            u in bareOf && bareOf[u] == Bare(u) && Candidate(bareOf, u) == Bare(u)
  {
    BareIsOther(u);
    StrippedExactly([u], u);
  }

  lemma OneWanted(u: string, ignored: string -> bool)
    requires Clean([u]) && Bare(u) != "" && !ignored(u) && !ignored(Bare(u))
    ensures WantedOf([], [u], ignored, map[], true) == [u]
  {
    var bareOf, none := BareNames([u], true), map[];
    OneBare(u);
    assert WantedIds([u][..0], bareOf, Covered([], none), ignored) == [];
  }

  lemma OneEntry(u: string, bareOf: map<string, string>)
    requires u in bareOf
    ensures Entries([u], bareOf) == map[bareOf[u] := u]
  {
    EntriesPush([], bareOf, u);
    assert [] + [u] == [u];
  }

  lemma OneStripped(u: string, ignored: string -> bool)
    requires Clean([u]) && Bare(u) != "" && !ignored(u) && !ignored(Bare(u))
    ensures var diff := DiffOf([], [u], ignored, map[], true);
            diff.add == [Bare(u)] && diff.entries == map[Bare(u) := u]
    ensures Candidate(BareNames([u], true), u) == Bare(u)
  {
    OneBare(u);
    OneWanted(u, ignored);
    AddIsCandidates([], [u], ignored, map[], true);
    OneEntry(u, BareNames([u], true));
  }

  /**
   A name with a comma that is served through its own entry settles the additions, but its
   first part p is read back as a name of its own and is newly pending removal.
   */
  lemma SplitNameIsRemoved(u: string, p: string, q: string, ignored: string -> bool)
    requires Clean([u]) && Bare(u) == p + [','] + q && p != "" && Trimmed(p) && ',' !in p
    requires !ignored(u) && !ignored(Bare(u))
    ensures var diff := DiffOf([], [u], ignored, map[], true);
            var diff' := DiffOf(Adopted([], diff.add), [u], ignored, diff.entries, true);
            && diff.add == [Bare(u)] && diff.entries == map[Bare(u) := u] && CommaSafe(diff, diff.entries, map[])
            && diff'.add == [] && p in diff'.remove && diff.remove == []
  {
    var bare := Bare(u);
    TrimSpaceTrims(u[LastSlash(u) + 1..]);
    assert bare[|p|] == ',';
    OneStripped(u, ignored);
    OwnEntryCovers(Adopted([], [bare]), u, bare, ignored);
    FirstPartAdopted(bare, p, q);
    FirstPartRemoved(Adopted([], [bare]), u, p, ignored);
  }

  /** A mapping of one trimmed key to one trimmed target is its own normal form. */
  lemma OwnNormalForm(k: string, v: string, m: map<string, string>)
    requires TrimSpace(k) == k != "" && TrimSpace(v) == v != "" && m == map[k := v]
    ensures NormalForm(m, m) && Unambiguous(m)
  {
    assert k in m && m[k] == v;
    forall x | x in m
      ensures x == k
    {}
  }

  /** A list whose ids are all mapping targets has nothing pending. */
  lemma CoveredIsNotPending(local: seq<string>, ids: seq<string>, ignored: string -> bool, m: map<string, string>,
                            strip: bool)
    requires Clean(ids) && forall id :: id in ids ==> id in m.Values
    ensures DiffOf(local, ids, ignored, m, strip).add == []
  {
    NothingWanted(ids, BareNames(ids, strip), Covered(local, m), ignored);
    AddIsCandidates(local, ids, ignored, m, strip);
  }

  lemma OwnEntryCovers(local: seq<string>, u: string, bare: string, ignored: string -> bool)
    requires Clean([u])
    ensures DiffOf(local, [u], ignored, map[bare := u], true).add == []
  {
    OneValue(bare, u);
    CoveredIsNotPending(local, [u], ignored, map[bare := u], true);
  }

  /** So the entry of SplitNameIsRemoved reads as it was written. */
  lemma OwnEntryNormal(u: string, bare: string, entries: map<string, string>)
    requires u != "" && Trimmed(u) && bare != "" && Trimmed(bare) && entries == map[bare := u]
    ensures NormalForm(entries, entries)
  {
    TrimSpaceFixes(u);
    TrimSpaceFixes(bare);
    OwnNormalForm(bare, u, entries);
  }

  lemma FirstPartRemoved(local: seq<string>, u: string, p: string, ignored: string -> bool)
    requires Clean([u]) && Clean(local) && p in local && ',' !in p && ',' in Bare(u) && !ignored(u) && !ignored(Bare(u))
    ensures p in DiffOf(local, [u], ignored, map[Bare(u) := u], true).remove
  {
    OneStripped(u, ignored);
    CandidateKeepsComma([u], true, u);
    RemoveExactly(local, [u], ignored, map[Bare(u) := u], true, p);
  }

  lemma FirstPartAdopted(bare: string, p: string, q: string)
    requires bare == p + [','] + q && p != "" && Trimmed(p) && ',' !in p && Trimmed(bare)
    ensures Clean(Adopted([], [bare])) && p in Adopted([], [bare])
  {
    MergeIntoNothing(bare);
    ReadNormalized(bare, ',');
    SplitConcat(p, q, ',');
    SplitPart(p, ',');
    NormalizeCleans(ReadList(bare, ','));
    NormalizeNames(Split(bare, ','), p);
    TrimSpaceFixes(p);
    assert Split(bare, ',')[0] == p;
  }

  /** For example the id x/b,c. */
  lemma SplitNameExample(ignored: string -> bool)
    requires !ignored("x/b,c") && !ignored("b,c")
    ensures var diff := DiffOf([], ["x/b,c"], ignored, map[], true);
            var diff' := DiffOf(Adopted([], diff.add), ["x/b,c"], ignored, diff.entries, true);
            diff.add == ["b,c"] && diff'.add == [] && "b" in diff'.remove && diff.remove == []
  {
    var u := "x/b,c";
    assert u[1] == '/' && '/' in u && LastSlash(u) == 1;
    assert u[2..] == "b,c";
    TrimSpaceFixes("b,c");
    assert Bare(u) == "b,c" && "b" + [','] + "c" == "b,c";
    assert Clean([u]);
    SplitNameIsRemoved(u, "b", "c", ignored);
  }
}
