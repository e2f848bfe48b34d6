/**
 The diff of controller/channel_upstream_update.go between a channel's model list and
 what its upstream advertises: vendor prefixes are stripped where that is unambiguous,
 and a mapping entry back to the upstream id travels with every stripped candidate.
 The ignore rules are an arbitrary predicate on names.
 */
module UpstreamDiff {
  import opened Text
  import opened NameLists

  // ---------------------------------------------------------------- prefix stripping

  /** strings.LastIndex(s, "/") */
  function LastSlash(s: string): (i: int)
    ensures -1 <= i < |s|
    ensures i >= 0 ==> s[i] == '/' && '/' !in s[i + 1..]
    ensures i < 0 ==> '/' !in s
  {
    if s == "" then -1
    else if s[|s| - 1] == '/' then |s| - 1
    else
      var i := LastSlash(s[..|s| - 1]);
      assert i >= 0 ==> s[i + 1..] == s[..|s| - 1][i + 1..] + [s[|s| - 1]];
      i
  }

  /** The last path segment, trimmed; blank when the id has no prefix. */
  function Bare(id: string): string {
    if LastSlash(id) < 0 then "" else TrimSpace(id[LastSlash(id) + 1..])
  }

  /** An id whose bare name is not itself an upstream id. */
  predicate Strippable(id: string, upstream: set<string>) {
    Bare(id) != "" && Bare(id) !in upstream
  }

  /** How many listed ids would collapse to a bare name. */
  function Claims(ids: seq<string>, upstream: set<string>, bare: string): nat {
    if ids == [] then 0
    else
      var last := ids[|ids| - 1];
      Claims(ids[..|ids| - 1], upstream, bare) + (if Strippable(last, upstream) && Bare(last) == bare then 1 else 0)
  }

  /** The ids that lose their prefix: strippable, and alone in claiming the bare name. */
  function Stripped(ids: seq<string>): map<string, string> {
    map id | id in ids && Strippable(id, Names(ids)) && Claims(ids, Names(ids), Bare(id)) == 1 :: Bare(id)
  }

  function Count(m: map<string, nat>, k: string): nat {
    if k in m then m[k] else 0
  }

  function AllBare(ids: seq<string>, upstream: set<string>): map<string, string> {
    map id | id in ids && Strippable(id, upstream) :: Bare(id)
  }

  lemma AllBarePush(ids: seq<string>, id: string, upstream: set<string>)
    ensures AllBare(ids + [id], upstream) ==
            if Strippable(id, upstream) then AllBare(ids, upstream)[id := Bare(id)] else AllBare(ids, upstream)
  {}

  lemma ClaimsPush(ids: seq<string>, id: string, upstream: set<string>)
    ensures forall b :: Claims(ids + [id], upstream, b) ==
                        Claims(ids, upstream, b) + (if Strippable(id, upstream) && Bare(id) == b then 1 else 0)
  {
    assert (ids + [id])[..|ids|] == ids;
  }

  method CountBare(ids: seq<string>, upstream: set<string>)
    returns (bareOf: map<string, string>, bareCount: map<string, nat>)
    ensures bareOf == AllBare(ids, upstream)
    ensures forall b :: Count(bareCount, b) == Claims(ids, upstream, b)
  {
    bareOf, bareCount := map[], map[];
    for i := 0 to |ids|
      invariant forall b :: Count(bareCount, b) == Claims(ids[..i], upstream, b)
      invariant bareOf == AllBare(ids[..i], upstream)
    {
      var id := ids[i];
      assert ids[..i + 1] == ids[..i] + [id];
      AllBarePush(ids[..i], id, upstream);
      ClaimsPush(ids[..i], id, upstream);
      var slash := LastSlash(id);
      if slash < 0 {
        continue;
      }
      var bare := TrimSpace(id[slash + 1..]);
      if bare == "" || bare in upstream {
        continue;
      }
      bareOf := bareOf[id := bare];
      bareCount := bareCount[bare := Count(bareCount, bare) + 1];
    }
    assert ids[..|ids|] == ids;
  }

  /** stripUpstreamVendorPrefixes */
  method StripVendorPrefixes(ids: seq<string>) returns (bareOf: map<string, string>)
    ensures bareOf == Stripped(ids)
  {
    var upstream := set id | id in ids;
    var all, bareCount := CountBare(ids, upstream);
    bareOf := DropAmbiguous(all, bareCount);
    StrippedFromCounts(ids, bareCount);
  }

  method DropAmbiguous(all: map<string, string>, bareCount: map<string, nat>) returns (bareOf: map<string, string>)
    ensures bareOf == map id | id in all && Count(bareCount, all[id]) <= 1 :: all[id]
  {
    bareOf := all;
    var todo := all.Keys;
    while todo != {}
      invariant todo <= bareOf.Keys <= all.Keys
      invariant forall id :: id in bareOf ==> bareOf[id] == all[id]
      invariant forall id :: id in all && id !in todo ==> (id in bareOf <==> Count(bareCount, all[id]) <= 1)
      decreases todo
    {
      var id :| id in todo;
      if Count(bareCount, bareOf[id]) > 1 {
        bareOf := bareOf - {id};
      }
      todo := todo - {id};
    }
  }

  lemma StrippedFromCounts(ids: seq<string>, bareCount: map<string, nat>)
    requires forall b :: Count(bareCount, b) == Claims(ids, Names(ids), b)
    ensures var all := AllBare(ids, Names(ids));
            Stripped(ids) == map id | id in all && Count(bareCount, all[id]) <= 1 :: all[id]
  {
    var all := AllBare(ids, Names(ids));
    forall id | id in all
      ensures Claims(ids, Names(ids), all[id]) >= 1 && Count(bareCount, all[id]) == Claims(ids, Names(ids), all[id])
    {
      ClaimsPositive(ids, Names(ids), id);
    }
  }

  lemma {:induction false} ClaimsPositive(ids: seq<string>, upstream: set<string>, id: string)
    requires id in ids && Strippable(id, upstream)
    ensures Claims(ids, upstream, Bare(id)) >= 1
  {
    var init, last := ids[..|ids| - 1], ids[|ids| - 1];
    assert ids == init + [last];
    if id != last {
      ClaimsPositive(init, upstream, id);
    }
  }

  lemma {:induction false} ClaimsTwice(ids: seq<string>, upstream: set<string>, a: string, b: string)
    requires a in ids && b in ids && a != b && Bare(a) == Bare(b)
    requires Strippable(a, upstream) && Strippable(b, upstream)
    ensures Claims(ids, upstream, Bare(a)) >= 2
  {
    var init, last := ids[..|ids| - 1], ids[|ids| - 1];
    assert ids == init + [last];
    if a == last {
      ClaimsPositive(init, upstream, b);
    } else if b == last {
      ClaimsPositive(init, upstream, a);
    } else {
      ClaimsTwice(init, upstream, a, b);
    }
  }

  lemma {:induction false} ClaimsOnce(ids: seq<string>, upstream: set<string>, id: string)
    requires Distinct(ids) && id in ids && Strippable(id, upstream)
    requires forall other :: other in ids && other != id ==> !Strippable(other, upstream) || Bare(other) != Bare(id)
    ensures Claims(ids, upstream, Bare(id)) == 1
  {
    var init, last := ids[..|ids| - 1], ids[|ids| - 1];
    assert ids == init + [last];
    if id == last {
      NoClaims(init, upstream, Bare(id));
    } else {
      ClaimsOnce(init, upstream, id);
    }
  }

  lemma {:induction false} NoClaims(ids: seq<string>, upstream: set<string>, bare: string)
    requires forall other :: other in ids ==> !Strippable(other, upstream) || Bare(other) != bare
    ensures Claims(ids, upstream, bare) == 0
  {
    if ids != [] {
      assert ids == ids[..|ids| - 1] + [ids[|ids| - 1]];
      NoClaims(ids[..|ids| - 1], upstream, bare);
    }
  }

  /** The name an upstream id is adopted under. */
  function Candidate(bareOf: map<string, string>, id: string): string {
    if id in bareOf then bareOf[id] else id
  }

  /** Stripping never conflates two upstream ids, for any upstream list. */
  lemma CandidatesInjective(ids: seq<string>, a: string, b: string)
    requires a in ids && b in ids && a != b
    ensures Candidate(Stripped(ids), a) != Candidate(Stripped(ids), b)
  {
    var upstream := Names(ids);
    if Strippable(a, upstream) && Strippable(b, upstream) && Bare(a) == Bare(b) {
      ClaimsTwice(ids, upstream, a, b);
    }
  }

  /**
   An id of a duplicate-free list is stripped exactly when its bare name is neither an
   upstream id nor the bare name of another strippable id.
   */
  lemma StrippedExactly(ids: seq<string>, id: string)
    requires Distinct(ids) && id in ids
    ensures id in Stripped(ids) <==>
            && Strippable(id, Names(ids))
            && forall other :: other in ids && other != id ==>
                 !Strippable(other, Names(ids)) || Bare(other) != Bare(id)
  {
    var upstream := Names(ids);
    if id in Stripped(ids) {
      forall other | other in ids && other != id && Strippable(other, upstream)
        ensures Bare(other) != Bare(id)
      {
        if Bare(other) == Bare(id) {
          ClaimsTwice(ids, upstream, id, other);
        }
      }
    } else if Strippable(id, upstream) {
      if forall other :: other in ids && other != id ==> !Strippable(other, upstream) || Bare(other) != Bare(id) {
        ClaimsOnce(ids, upstream, id);
      }
    }
  }

  // ---------------------------------------------------------------- the diff

  function BareNames(upstream: seq<string>, strip: bool): map<string, string> {
    if strip then Stripped(upstream) else map[]
  }

  predicate Wanted(id: string, bareOf: map<string, string>, covered: set<string>, ignored: string -> bool) {
    var candidate := Candidate(bareOf, id);
    && candidate !in covered && id !in covered
    && !ignored(candidate) && !(candidate != id && ignored(id))
  }

  /** The upstream ids that are neither covered nor ignored, in order. */
  function WantedIds(ids: seq<string>, bareOf: map<string, string>, covered: set<string>, ignored: string -> bool)
    : seq<string>
  {
    if ids == [] then []
    else
      var init, last := WantedIds(ids[..|ids| - 1], bareOf, covered, ignored), ids[|ids| - 1];
      if Wanted(last, bareOf, covered, ignored) then init + [last] else init
  }

  function Candidates(ids: seq<string>, bareOf: map<string, string>): (r: seq<string>)
    ensures |r| == |ids|
    ensures forall i :: 0 <= i < |r| ==> r[i] == Candidate(bareOf, ids[i])
  {
    seq(|ids|, i requires 0 <= i < |ids| => Candidate(bareOf, ids[i]))
  }

  /** Local names and mapping targets are served already. */
  function Covered(local: seq<string>, mapping: map<string, string>): set<string> {
    Names(local) + mapping.Values
  }

  datatype Diff = Diff(add: seq<string>, remove: seq<string>, entries: map<string, string>)

  function Entries(wanted: seq<string>, bareOf: map<string, string>): map<string, string> {
    map candidate | candidate in (set id | id in wanted && id in bareOf :: bareOf[id]) ::
      Owner(wanted, bareOf, candidate)
  }

  /** The last listed id adopted under a candidate name. */
  function Owner(wanted: seq<string>, bareOf: map<string, string>, candidate: string): (id: string)
    requires exists id :: id in wanted && id in bareOf && bareOf[id] == candidate
    ensures id in wanted && id in bareOf && bareOf[id] == candidate
  {
    var last := wanted[|wanted| - 1];
    if last in bareOf && bareOf[last] == candidate then last
    else
      assert wanted == wanted[..|wanted| - 1] + [last];
      Owner(wanted[..|wanted| - 1], bareOf, candidate)
  }

  /** collectPendingUpstreamModelChangesFromModels, on lists that are already normalized. */
  function DiffOf(local: seq<string>, upstream: seq<string>, ignored: string -> bool, mapping: map<string, string>,
                  strip: bool): Diff
  {
    var bareOf := BareNames(upstream, strip);
    var wanted := WantedIds(upstream, bareOf, Covered(local, mapping), ignored);
    Diff(Normalize(Candidates(wanted, bareOf)),
         Normalize(Drop(local, mapping.Keys + Names(upstream) + bareOf.Values)),
         Entries(wanted, bareOf))
  }

  method CollectWanted(upstream: seq<string>, bareOf: map<string, string>, covered: set<string>,
                       ignored: string -> bool)
    returns (add: seq<string>, entries: map<string, string>)
    requires forall id :: id in upstream && id in bareOf ==> bareOf[id] != id
    ensures add == Candidates(WantedIds(upstream, bareOf, covered, ignored), bareOf)
    ensures entries == Entries(WantedIds(upstream, bareOf, covered, ignored), bareOf)
  {
    ghost var wanted: seq<string> := [];
    add, entries := [], map[];
    for i := 0 to |upstream|
      invariant wanted == WantedIds(upstream[..i], bareOf, covered, ignored)
      invariant add == Candidates(wanted, bareOf)
      invariant entries == Entries(wanted, bareOf)
    {
      assert upstream[..i + 1][..i] == upstream[..i];
      var id := upstream[i];
      var candidate := if id in bareOf then bareOf[id] else id;
      if candidate in covered || id in covered {
        continue;
      }
      if ignored(candidate) || (candidate != id && ignored(id)) {
        continue;
      }
      EntriesPush(wanted, bareOf, id);
      wanted := wanted + [id];
      add := add + [candidate];
      if candidate != id {
        entries := entries[candidate := id];
      }
    }
    assert upstream[..|upstream|] == upstream;
  }

  method CollectPending(localModels: seq<string>, upstreamModels: seq<string>, ignored: string -> bool,
                        mapping: map<string, string>, strip: bool) returns (diff: Diff)
    ensures diff == DiffOf(Normalize(localModels), Normalize(upstreamModels), ignored, mapping, strip)
  {
    var local, upstream := Normalize(localModels), Normalize(upstreamModels);
    var listed := set id | id in upstream;
    var bareOf: map<string, string> := map[];
    if strip {
      bareOf := StripVendorPrefixes(upstream);
      listed := listed + bareOf.Values;
    }
    assert listed == Names(upstream) + bareOf.Values;
    BareDiffers(upstream, strip);
    var covered := (set m | m in local) + mapping.Values;
    var add, entries := CollectWanted(upstream, bareOf, covered, ignored);
    var remove := Drop(local, mapping.Keys + listed);
    assert mapping.Keys + listed == mapping.Keys + Names(upstream) + bareOf.Values;
    diff := Diff(Normalize(add), Normalize(remove), entries);
  }

  lemma BareDiffers(upstream: seq<string>, strip: bool)
    ensures var bareOf := BareNames(upstream, strip); forall id :: id in upstream && id in bareOf ==> bareOf[id] != id
  {
    forall id | id in upstream && id in BareNames(upstream, strip)
      ensures BareNames(upstream, strip)[id] != id
    {
      assert id in Names(upstream);
    }
  }

  lemma EntriesPush(wanted: seq<string>, bareOf: map<string, string>, id: string)
    ensures Entries(wanted + [id], bareOf) ==
            if id in bareOf then Entries(wanted, bareOf)[bareOf[id] := id] else Entries(wanted, bareOf)
  {
    var more := wanted + [id];
    assert more[..|more| - 1] == wanted;
    forall candidate | candidate in Entries(more, bareOf)
      ensures id in bareOf && candidate == bareOf[id] ==> Owner(more, bareOf, candidate) == id
      ensures !(id in bareOf && candidate == bareOf[id]) ==> candidate in Entries(wanted, bareOf)
    {}
  }

  // ---------------------------------------------------------------- what the diff promises

  lemma {:induction false} WantedMembers(ids: seq<string>, bareOf: map<string, string>, covered: set<string>,
                                         ignored: string -> bool, id: string)
    ensures id in WantedIds(ids, bareOf, covered, ignored) <==> id in ids && Wanted(id, bareOf, covered, ignored)
  {
    if ids != [] {
      assert ids == ids[..|ids| - 1] + [ids[|ids| - 1]];
      WantedMembers(ids[..|ids| - 1], bareOf, covered, ignored, id);
    }
  }

  lemma {:induction false} WantedDistinct(ids: seq<string>, bareOf: map<string, string>, covered: set<string>,
                                          ignored: string -> bool)
    requires Distinct(ids)
    ensures Distinct(WantedIds(ids, bareOf, covered, ignored))
  {
    if ids != [] {
      var init, last := ids[..|ids| - 1], ids[|ids| - 1];
      WantedDistinct(init, bareOf, covered, ignored);
      WantedMembers(init, bareOf, covered, ignored, last);
      assert last !in init;
    }
  }

  function WantedOf(local: seq<string>, upstream: seq<string>, ignored: string -> bool, mapping: map<string, string>,
                    strip: bool): seq<string>
  {
    WantedIds(upstream, BareNames(upstream, strip), Covered(local, mapping), ignored)
  }

  lemma CandidateClean(upstream: seq<string>, strip: bool, id: string)
    requires Clean(upstream) && id in upstream
    ensures var candidate := Candidate(BareNames(upstream, strip), id); candidate != "" && Trimmed(candidate)
  {
    if LastSlash(id) >= 0 {
      TrimSpaceTrims(id[LastSlash(id) + 1..]);
    }
  }

  lemma CandidatesClean(local: seq<string>, upstream: seq<string>, ignored: string -> bool,
                        mapping: map<string, string>, strip: bool)
    requires Clean(upstream)
    ensures Clean(Candidates(WantedOf(local, upstream, ignored, mapping, strip), BareNames(upstream, strip)))
  {
    var bareOf, wanted := BareNames(upstream, strip), WantedOf(local, upstream, ignored, mapping, strip);
    var all := Candidates(wanted, bareOf);
    WantedDistinct(upstream, bareOf, Covered(local, mapping), ignored);
    forall i | 0 <= i < |wanted|
      ensures wanted[i] in upstream
    {
      WantedMembers(upstream, bareOf, Covered(local, mapping), ignored, wanted[i]);
    }
    forall i, j | 0 <= i < j < |all|
      ensures all[i] != all[j]
    {
      if strip {
        CandidatesInjective(upstream, wanted[i], wanted[j]);
      }
    }
    forall x | x in all
      ensures x != "" && Trimmed(x)
    {
      var i :| 0 <= i < |all| && all[i] == x;
      CandidateClean(upstream, strip, wanted[i]);
    }
  }

  /** The pending additions are the candidates of the wanted ids, as they stand. */
  lemma AddIsCandidates(local: seq<string>, upstream: seq<string>, ignored: string -> bool,
                        mapping: map<string, string>, strip: bool)
    requires Clean(upstream)
    ensures DiffOf(local, upstream, ignored, mapping, strip).add ==
            Candidates(WantedOf(local, upstream, ignored, mapping, strip), BareNames(upstream, strip))
  {
    CandidatesClean(local, upstream, ignored, mapping, strip);
    NormalizeCleans(Candidates(WantedOf(local, upstream, ignored, mapping, strip), BareNames(upstream, strip)));
  }

  /**
   A name is a pending addition exactly when it is the candidate of a listed id that is
   neither served nor ignored under either spelling.
   */
  lemma AddExactly(local: seq<string>, upstream: seq<string>, ignored: string -> bool, mapping: map<string, string>,
                   strip: bool, name: string)
    requires Clean(upstream)
    ensures var bareOf := BareNames(upstream, strip);
            name in DiffOf(local, upstream, ignored, mapping, strip).add <==>
            exists id :: id in upstream && Candidate(bareOf, id) == name &&
              Wanted(id, bareOf, Covered(local, mapping), ignored)
  {
    var bareOf, covered := BareNames(upstream, strip), Covered(local, mapping);
    var wanted := WantedOf(local, upstream, ignored, mapping, strip);
    AddIsCandidates(local, upstream, ignored, mapping, strip);
    if name in Candidates(wanted, bareOf) {
      var i :| 0 <= i < |wanted| && Candidates(wanted, bareOf)[i] == name;
      WantedMembers(upstream, bareOf, covered, ignored, wanted[i]);
    }
    if id :| id in upstream && Candidate(bareOf, id) == name && Wanted(id, bareOf, covered, ignored) {
      WantedMembers(upstream, bareOf, covered, ignored, id);
      var i :| 0 <= i < |wanted| && wanted[i] == id;
      assert Candidates(wanted, bareOf)[i] == name;
    }
  }

  /** Pending additions are clean and disjoint from everything already served. */
  lemma AddIsNew(local: seq<string>, upstream: seq<string>, ignored: string -> bool, mapping: map<string, string>,
                 strip: bool)
    requires Clean(upstream)
    ensures Clean(DiffOf(local, upstream, ignored, mapping, strip).add)
    ensures Names(DiffOf(local, upstream, ignored, mapping, strip).add) !! Covered(local, mapping)
  {
    AddIsCandidates(local, upstream, ignored, mapping, strip);
    CandidatesClean(local, upstream, ignored, mapping, strip);
    forall name | name in DiffOf(local, upstream, ignored, mapping, strip).add
      ensures name !in Covered(local, mapping)
    {
      AddExactly(local, upstream, ignored, mapping, strip, name);
    }
  }

  /**
   Every mapping entry belongs to a pending candidate and names the one upstream id
   adopted under it; a candidate without an entry is an upstream id as it stands.
   */
  lemma EntriesNameTheirId(local: seq<string>, upstream: seq<string>, ignored: string -> bool,
                           mapping: map<string, string>, strip: bool, name: string)
    requires Clean(upstream)
    ensures var diff, bareOf := DiffOf(local, upstream, ignored, mapping, strip), BareNames(upstream, strip);
            && (name in diff.entries ==>
                  && name in diff.add && diff.entries[name] in upstream
                  && forall id :: id in upstream && Candidate(bareOf, id) == name ==> id == diff.entries[name])
            && (name in diff.add && name !in diff.entries ==> name in upstream)
  {
    var diff, bareOf := DiffOf(local, upstream, ignored, mapping, strip), BareNames(upstream, strip);
    var wanted, covered := WantedOf(local, upstream, ignored, mapping, strip), Covered(local, mapping);
    AddExactly(local, upstream, ignored, mapping, strip, name);
    if name in diff.entries {
      var owner := diff.entries[name];
      WantedMembers(upstream, bareOf, covered, ignored, owner);
      forall id | id in upstream && Candidate(bareOf, id) == name
        ensures id == owner
      {
        if id != owner && strip {
          CandidatesInjective(upstream, id, owner);
        }
      }
    } else if name in diff.add {
      var id :| id in upstream && Candidate(bareOf, id) == name && Wanted(id, bareOf, covered, ignored);
      WantedMembers(upstream, bareOf, covered, ignored, id);
    }
  }

  lemma EntriesAreAdded(local: seq<string>, upstream: seq<string>, ignored: string -> bool,
                        mapping: map<string, string>, strip: bool)
    requires Clean(upstream)
    ensures var diff := DiffOf(local, upstream, ignored, mapping, strip);
            diff.entries.Keys <= Names(diff.add) && diff.entries.Values <= Names(upstream)
  {
    var diff := DiffOf(local, upstream, ignored, mapping, strip);
    forall name | name in diff.entries
      ensures name in diff.add && diff.entries[name] in upstream
    {
      EntriesNameTheirId(local, upstream, ignored, mapping, strip, name);
    }
  }

  /**
   A served name is pending removal exactly when the upstream no longer lists it, under its
   full or its stripped spelling, and it is not an alias of the channel's mapping.
   */
  lemma RemoveExactly(local: seq<string>, upstream: seq<string>, ignored: string -> bool, mapping: map<string, string>,
                      strip: bool, name: string)
    requires Clean(local)
    ensures var bareOf := BareNames(upstream, strip);
            name in DiffOf(local, upstream, ignored, mapping, strip).remove <==>
            && name in local && name !in upstream && name !in mapping
            && forall id :: id in upstream ==> Candidate(bareOf, id) != name
  {
    var bareOf := BareNames(upstream, strip);
    var known := mapping.Keys + Names(upstream) + bareOf.Values;
    KeepCleans(local, Names(local) - known);
    NormalizeCleans(Drop(local, known));
    DropNames(local, known);
    assert name in DiffOf(local, upstream, ignored, mapping, strip).remove <==> name in Names(Drop(local, known));
    assert name in bareOf.Values <==> exists id :: id in bareOf && bareOf[id] == name;
  }

  // ---------------------------------------------------------------- mapping entries

  /** The model_mapping column: JSON that parses to a map, or does not parse. */
  datatype Stored = Unparsable | Parsed(m: map<string, string>)

  /** The entries of the given models; a blank target is none. */
  function Narrowed(pending: map<string, string>, models: seq<string>): map<string, string> {
    map k | k in models && k in pending && pending[k] != "" :: pending[k]
  }

  /** pendingModelMappingFor: the entries of models that are still staged */
  method PendingMappingFor(pending: map<string, string>, models: seq<string>) returns (narrowed: map<string, string>)
    ensures narrowed == Narrowed(pending, Normalize(models))
  {
    var names := Normalize(models);
    narrowed := map[];
    for i := 0 to |names|
      invariant narrowed == map k | k in names[..i] && k in pending && pending[k] != "" :: pending[k]
    {
      assert names[..i + 1] == names[..i] + [names[i]];
      if names[i] in pending && pending[names[i]] != "" {
        narrowed := narrowed[names[i] := pending[names[i]]];
      }
    }
    assert names[..|names|] == names;
  }

  /**
   mergeChannelModelMapping: the stored entries always win, and an unparsable column
   is never rewritten.
   */
  method MergeChannelMapping(stored: Stored, entries: map<string, string>)
    returns (merged: map<string, string>, changed: bool)
    ensures changed <==> stored.Parsed? && !(entries.Keys <= stored.m.Keys)
    ensures changed ==>
      && merged.Keys == entries.Keys + stored.m.Keys
      && (forall k :: k in stored.m ==> merged[k] == stored.m[k])
      && (forall k :: k in entries && k !in stored.m ==> merged[k] == entries[k])
  {
    merged, changed := map[], false;
    if entries == map[] || stored.Unparsable? {
      return;
    }
    merged := stored.m;
    var todo := entries.Keys;
    while todo != {}
      invariant todo <= entries.Keys
      invariant merged == (map k | k in entries && k !in todo :: entries[k]) + stored.m
      invariant changed <==> exists k :: k in entries && k !in todo && k !in stored.m
      decreases todo
    {
      var k :| k in todo;
      if k !in merged {
        merged := merged[k := entries[k]];
        changed := true;
      }
      todo := todo - {k};
    }
  }

  /**
   What normalizeChannelModelMapping may return for a stored mapping. Two stored keys
   that differ only in white space make the outcome depend on Go's map order.
   */
  predicate NormalForm(raw: map<string, string>, m: map<string, string>) {
    && (forall k :: k in m ==>
          k != "" && m[k] != "" && exists r :: r in raw && TrimSpace(r) == k && TrimSpace(raw[r]) == m[k])
    && (forall r :: r in raw && TrimSpace(r) != "" && TrimSpace(raw[r]) != "" ==> TrimSpace(r) in m)
  }

  predicate KeysTrimmed(raw: map<string, string>) {
    forall r :: r in raw ==> Trimmed(r)
  }

  /** No two keys differ only in white space. */
  predicate Unambiguous(raw: map<string, string>) {
    forall r, r' :: r in raw && r' in raw && r != r' ==> TrimSpace(r) != TrimSpace(r')
  }
}
