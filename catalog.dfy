/** The helpers of traindb.catalog.JDOCatalogContext that do not touch the
    persistence manager: the JDOQL filter builder, the column-name
    de-duplication of trainModel, and the join-table candidate selection of
    getJoinSynopses (with the query results given as inputs). */
module Catalog {
  import opened Common

  // ---------------------------------------------------------------------
  // setFilterPatterns.

  /** A filter value: a String, or any other object (here a Long). */
  datatype FilterValue = StringValue(s: string) | LongValue(n: int)

  /** One equality pattern: a String is matched, anything else compared with
      `==`; the value is written as it is, without escaping. */
  function Clause(key: string, v: FilterValue): string
  {
    match v
    case StringValue(s) => key + ".matches('" + s + "')"
    case LongValue(n) => key + " == " + Decimal(n)
  }

  /** The clauses of the entries, in iteration order. */
  function Clauses(entries: seq<(string, FilterValue)>): (cs: seq<string>)
    ensures |cs| == |entries|
    ensures forall i :: 0 <= i < |entries| ==> cs[i] == Clause(entries[i].0, entries[i].1)
  {
    seq(|entries|, i requires 0 <= i < |entries| => Clause(entries[i].0, entries[i].1))
  }

  /** What the StringBuilder holds after the loop: each clause followed by " && ". */
  function Terminated(cs: seq<string>): string
  {
    if |cs| == 0 then "" else Terminated(cs[..|cs| - 1]) + cs[|cs| - 1] + " && "
  }

  /** The builder is the joined clauses with one more separator at the end. */
  lemma {:induction false} TerminatedIsJoinPlusSeparator(cs: seq<string>)
    requires |cs| > 0
    ensures Terminated(cs) == Join(cs, " && ") + " && "
  {
    if |cs| > 1 {
      TerminatedIsJoinPlusSeparator(cs[..|cs| - 1]);
    }
  }

  /** The filter set on the query, or None when setFilter is not called. */
  method SetFilterPatterns(entries: seq<(string, FilterValue)>) returns (filter: Option<string>)
    ensures |entries| == 0 ==> filter == None
    ensures |entries| > 0 ==> filter == Some(Join(Clauses(entries), " && "))
  {
    ghost var cs := Clauses(entries);
    var sb := "";
    for i := 0 to |entries|
      invariant sb == Terminated(cs[..i])
    {
      var clause := Clause(entries[i].0, entries[i].1);
      assert cs[..i + 1][..i] == cs[..i] && cs[..i + 1][i] == clause;
      sb := sb + clause + " && ";
    }
    assert cs[..|entries|] == cs;
    if |sb| > 0 {
      TerminatedIsJoinPlusSeparator(cs);
      ghost var joined := Join(cs, " && ");
      assert sb == joined + " && ";
      assert sb[..|sb| - 4] == joined;
      filter := Some(sb[..|sb| - 4]);
    } else {
      filter := None;
    }
  }

  /** A String value lands between the quotes exactly as given, so a quote
      inside it ends the pattern early. */
  lemma StringValueNotEscaped(key: string, s: string)
    ensures StartsWith(Clause(key, StringValue(s)), key + ".matches('")
    ensures EndsWith(Clause(key, StringValue(s)), s + "')")
  {
    var c := Clause(key, StringValue(s));
    assert c == (key + ".matches('") + (s + "')");
  }

  /** The filter getJoinSynopses sets for one id: `key == id`. */
  lemma SingleIdFilter(key: string, id: int)
    ensures Join(Clauses([(key, LongValue(id))]), " && ") == key + " == " + Decimal(id)
  {
  }

  /** n entries give n clauses joined by n - 1 separators, in entry order. */
  lemma FilterSeparators(entries: seq<(string, FilterValue)>)
    requires |entries| > 1
    ensures Join(Clauses(entries), " && ") ==
            Join(Clauses(entries[..|entries| - 1]), " && ") + " && "
              + Clause(entries[|entries| - 1].0, entries[|entries| - 1].1)
  {
    assert Clauses(entries)[..|entries| - 1] == Clauses(entries[..|entries| - 1]);
  }

  // ---------------------------------------------------------------------
  // The de-duplication loop of trainModel.

  predicate NoDuplicates(s: seq<string>)
  {
    forall i, j :: 0 <= i < j < |s| ==> s[i] != s[j]
  }

  /** Keep each name the first time it is seen. */
  function Dedup(s: seq<string>): seq<string>
  {
    if |s| == 0 then []
    else
      var d := Dedup(s[..|s| - 1]);
      if s[|s| - 1] in d then d else d + [s[|s| - 1]]
  }

  /** An independent account: the positions where a name occurs for the
      first time, in order. */
  function FirstOccurrences(s: seq<string>): seq<string>
  {
    if |s| == 0 then []
    else FirstOccurrences(s[..|s| - 1]) + (if s[|s| - 1] in s[..|s| - 1] then [] else [s[|s| - 1]])
  }

  /** The result has the same names as the input. */
  lemma {:induction false} DedupSameNames(s: seq<string>)
    ensures forall x :: x in Dedup(s) <==> x in s
  {
    if |s| > 0 {
      DedupSameNames(s[..|s| - 1]);
      assert s == s[..|s| - 1] + [s[|s| - 1]];
    }
  }

  /** The result holds each name once. */
  lemma {:induction false} DedupNoDuplicates(s: seq<string>)
    ensures NoDuplicates(Dedup(s))
  {
    if |s| > 0 {
      DedupNoDuplicates(s[..|s| - 1]);
    }
  }

  /** The result is exactly the first occurrences, in their original order. */
  lemma {:induction false} DedupKeepsFirstOccurrences(s: seq<string>)
    ensures Dedup(s) == FirstOccurrences(s)
  {
    if |s| > 0 {
      DedupKeepsFirstOccurrences(s[..|s| - 1]);
      DedupSameNames(s[..|s| - 1]);
    }
  }

  /** A list without duplicates is left as it is, so a second pass changes nothing. */
  lemma {:induction false} DedupOfDistinct(s: seq<string>)
    requires NoDuplicates(s)
    ensures Dedup(s) == s
  {
    if |s| > 0 {
      var init := s[..|s| - 1];
      DedupOfDistinct(init);
      forall k | 0 <= k < |init|
        ensures init[k] != s[|s| - 1]
      {
        assert init[k] == s[k];
      }
      assert s == init + [s[|s| - 1]];
    }
  }

  lemma DedupIdempotent(s: seq<string>)
    ensures Dedup(Dedup(s)) == Dedup(s)
  {
    DedupNoDuplicates(s);
    DedupOfDistinct(Dedup(s));
  }

  /** One more name either is already kept or is appended. */
  lemma DedupExtend(s: seq<string>, k: nat)
    requires k < |s|
    ensures Dedup(s[..k + 1]) ==
            if s[k] in Dedup(s[..k]) then Dedup(s[..k]) else Dedup(s[..k]) + [s[k]]
  {
    assert s[..k + 1][..k] == s[..k];
  }

  /** Removing the element at `pos` keeps what is before it and shifts what
      is after it. */
  lemma RemoveAt(xs: seq<string>, pos: nat, rest: seq<string>)
    requires pos < |xs| && xs[pos + 1..] == rest
    ensures var ys := xs[..pos] + xs[pos + 1..]; ys[..pos] == xs[..pos] && ys[pos..] == rest
  {
  }

  /** The caller's List<String> that the loop edits in place. */
  class ColumnNames {
    var names: seq<string>

    constructor (names: seq<string>)
      ensures this.names == names
    {
      this.names := names;
    }

    /** Walk the list with an iterator and a set of names seen so far,
        removing each name already in the set. */
    method RemoveDuplicates()
      modifies this
      ensures names == Dedup(old(names))
    {
      ghost var original := names;
      var seen: set<string> := {};
      var pos := 0;
      ghost var k := 0;
      while pos < |names|
        invariant 0 <= pos <= |names| && 0 <= k <= |original|
        invariant names[..pos] == Dedup(original[..k])
        invariant names[pos..] == original[k..]
        invariant seen == set x | x in names[..pos]
        decreases |names| - pos
      {
        var colname := names[pos];
        assert original[k] == colname by {
          assert names[pos..][0] == original[k..][0];
        }
        DedupExtend(original, k);
        if colname in seen {
          RemoveAt(names, pos, original[k + 1..]);
          names := names[..pos] + names[pos + 1..];
        } else {
          seen := seen + {colname};
          assert names[..pos + 1] == names[..pos] + [colname];
          assert names[pos + 1..] == names[pos..][1..];
          pos := pos + 1;
        }
        k := k + 1;
      }
      assert k == |original| by {
        assert |names[pos..]| == 0;
      }
      assert original[..k] == original;
      assert names[..pos] == names;
    }
  }

  // ---------------------------------------------------------------------
  // The join candidates of getJoinSynopses.

  /** retainAll: keep the elements of `xs` that occur in `ids`, in order. */
  function Retain(xs: seq<int>, ids: seq<int>): (r: seq<int>)
    ensures forall x :: x in r <==> x in xs && x in ids
  {
    if |xs| == 0 then []
    else Retain(xs[..|xs| - 1], ids) + (if xs[|xs| - 1] in ids then [xs[|xs| - 1]] else [])
  }

  /** The id intersection, list by list, starting from the first list. */
  function CommonIds(lists: seq<seq<int>>): seq<int>
    requires |lists| > 0
  {
    if |lists| == 1 then lists[0] else Retain(CommonIds(lists[..|lists| - 1]), lists[|lists| - 1])
  }

  /** An id is in every list. */
  predicate InAll(x: int, lists: seq<seq<int>>)
  {
    forall j :: 0 <= j < |lists| ==> x in lists[j]
  }

  /** The elements of `xs` found in every list, in `xs`'s order: the
      reference for the intersection. */
  function KeepInAll(xs: seq<int>, lists: seq<seq<int>>): seq<int>
  {
    if |xs| == 0 then []
    else KeepInAll(xs[..|xs| - 1], lists) + (if InAll(xs[|xs| - 1], lists) then [xs[|xs| - 1]] else [])
  }

  lemma {:induction false} RetainKeepInAll(xs: seq<int>, lists: seq<seq<int>>, ids: seq<int>)
    ensures Retain(KeepInAll(xs, lists), ids) == KeepInAll(xs, lists + [ids])
  {
    if |xs| > 0 {
      var init := xs[..|xs| - 1];
      var x := xs[|xs| - 1];
      RetainKeepInAll(init, lists, ids);
      RetainSnoc(KeepInAll(init, lists), if InAll(x, lists) then [x] else [], ids);
      assert InAll(x, lists + [ids]) <==> InAll(x, lists) && x in ids by {
        if InAll(x, lists) && x in ids {
          forall j | 0 <= j < |lists + [ids]|
            ensures x in (lists + [ids])[j]
          {
            if j < |lists| {
              assert (lists + [ids])[j] == lists[j];
            }
          }
        }
        if InAll(x, lists + [ids]) {
          forall j | 0 <= j < |lists|
            ensures x in lists[j]
          {
            assert (lists + [ids])[j] == lists[j];
          }
          assert (lists + [ids])[|lists|] == ids;
        }
      }
    }
  }

  lemma {:induction false} RetainSnoc(a: seq<int>, b: seq<int>, ids: seq<int>)
    requires |b| <= 1
    ensures Retain(a + b, ids) == Retain(a, ids) + Retain(b, ids)
  {
    if |b| == 1 {
      assert (a + b)[..|a + b| - 1] == a;
      assert b[..0] == [];
    } else {
      assert a + b == a;
    }
  }

  lemma {:induction false} KeepInAllOfSelf(xs: seq<int>)
    ensures KeepInAll(xs, [xs]) == xs
  {
    if |xs| > 0 {
      var init := xs[..|xs| - 1];
      KeepInAllPrefix(init, xs);
      assert InAll(xs[|xs| - 1], [xs]);
      assert xs == init + [xs[|xs| - 1]];
    }
  }

  lemma {:induction false} KeepInAllPrefix(init: seq<int>, xs: seq<int>)
    requires forall x :: x in init ==> x in xs
    ensures KeepInAll(init, [xs]) == init
  {
    if |init| > 0 {
      KeepInAllPrefix(init[..|init| - 1], xs);
      assert init[|init| - 1] in init;
      assert InAll(init[|init| - 1], [xs]);
      assert init == init[..|init| - 1] + [init[|init| - 1]];
    }
  }

  /** The intersection keeps exactly the first list's ids that every list
      has, in the first list's order. */
  lemma {:induction false} CommonIdsAreInAll(lists: seq<seq<int>>)
    requires |lists| > 0
    ensures CommonIds(lists) == KeepInAll(lists[0], lists)
  {
    if |lists| == 1 {
      KeepInAllOfSelf(lists[0]);
      assert lists == [lists[0]];
    } else {
      var init := lists[..|lists| - 1];
      CommonIdsAreInAll(init);
      RetainKeepInAll(lists[0], init, lists[|lists| - 1]);
      assert init + [lists[|lists| - 1]] == lists;
    }
  }

  /** The loop over the base tables: the first table's ids, narrowed in place
      by each further table's ids; null when there is no base table. */
  method JoinTableIds(baseTableIds: seq<int>, idsOf: int -> seq<int>) returns (joinTableIds: Option<seq<int>>)
    ensures |baseTableIds| == 0 <==> joinTableIds.None?
    ensures |baseTableIds| > 0 ==>
      joinTableIds == Some(CommonIds(seq(|baseTableIds|, i requires 0 <= i < |baseTableIds| => idsOf(baseTableIds[i]))))
  {
    ghost var lists := seq(|baseTableIds|, i requires 0 <= i < |baseTableIds| => idsOf(baseTableIds[i]));
    joinTableIds := None;
    for t := 0 to |baseTableIds|
      invariant t == 0 <==> joinTableIds.None?
      invariant t > 0 ==> joinTableIds == Some(CommonIds(lists[..t]))
    {
      var ids := idsOf(baseTableIds[t]);
      assert lists[..t + 1][..t] == lists[..t];
      if joinTableIds.None? {
        joinTableIds := Some(ids);
      } else {
        joinTableIds := Some(Retain(joinTableIds.value, ids));
      }
    }
    if |baseTableIds| > 0 {
      assert lists[..|baseTableIds|] == lists;
    }
  }

  /** The ids whose join table has as many MJoin rows as there are base
      tables, in order. */
  function WithCount(ids: seq<int>, baseCount: nat, joinCount: int -> nat): (r: seq<int>)
    ensures forall x :: x in r <==> x in ids && joinCount(x) == baseCount
    ensures |r| <= |ids|
  {
    if |ids| == 0 then []
    else WithCount(ids[..|ids| - 1], baseCount, joinCount)
         + (if joinCount(ids[|ids| - 1]) == baseCount then [ids[|ids| - 1]] else [])
  }

  /** The loop that skips a join table whose MJoin count differs from the
      number of base tables. */
  method SizeMatched(joinTableIds: seq<int>, baseCount: nat, joinCount: int -> nat) returns (kept: seq<int>)
    ensures kept == WithCount(joinTableIds, baseCount, joinCount)
  {
    kept := [];
    for i := 0 to |joinTableIds|
      invariant kept == WithCount(joinTableIds[..i], baseCount, joinCount)
    {
      assert joinTableIds[..i + 1][..i] == joinTableIds[..i];
      if baseCount != joinCount(joinTableIds[i]) {
        continue;
      }
      kept := kept + [joinTableIds[i]];
    }
    assert joinTableIds[..|joinTableIds|] == joinTableIds;
  }

  /** The join tables getJoinSynopses goes on to inspect: present for every
      base table and matching the base-table count; null without base tables. */
  method JoinCandidates(baseTableIds: seq<int>, idsOf: int -> seq<int>, joinCount: int -> nat)
    returns (r: Option<seq<int>>)
    ensures |baseTableIds| == 0 <==> r.None?
    ensures r.Some? ==> r.value == WithCount(KeepInAll(idsOf(baseTableIds[0]),
                                                      seq(|baseTableIds|, i requires 0 <= i < |baseTableIds| => idsOf(baseTableIds[i]))),
                                            |baseTableIds|, joinCount)
    ensures r.Some? ==> forall x :: x in r.value <==>
      && x in idsOf(baseTableIds[0])
      && (forall t :: t in baseTableIds ==> x in idsOf(t))
      && joinCount(x) == |baseTableIds|
  {
    var joinTableIds := JoinTableIds(baseTableIds, idsOf);
    if joinTableIds.None? {
      return None;
    }
    ghost var lists := seq(|baseTableIds|, i requires 0 <= i < |baseTableIds| => idsOf(baseTableIds[i]));
    CommonIdsAreInAll(lists);
    KeepInAllMembers(lists[0], lists);
    var kept := SizeMatched(joinTableIds.value, |baseTableIds|, joinCount);
    forall x | x in kept
      ensures forall t :: t in baseTableIds ==> x in idsOf(t)
    {
      forall t | t in baseTableIds
        ensures x in idsOf(t)
      {
        var j :| 0 <= j < |baseTableIds| && baseTableIds[j] == t;
        assert lists[j] == idsOf(t);
      }
    }
    forall x | x in idsOf(baseTableIds[0]) && (forall t :: t in baseTableIds ==> x in idsOf(t))
      ensures InAll(x, lists)
    {
      forall j | 0 <= j < |lists|
        ensures x in lists[j]
      {
        var t := baseTableIds[j];
        assert t in baseTableIds;
        assert x in idsOf(t);
        assert lists[j] == idsOf(t);
      }
    }
    r := Some(kept);
  }

  lemma {:induction false} KeepInAllMembers(xs: seq<int>, lists: seq<seq<int>>)
    ensures forall x :: x in KeepInAll(xs, lists) <==> x in xs && InAll(x, lists)
  {
    if |xs| > 0 {
      KeepInAllMembers(xs[..|xs| - 1], lists);
      assert xs == xs[..|xs| - 1] + [xs[|xs| - 1]];
    }
  }
}
