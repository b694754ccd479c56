/** Reconciling the model list of a channel with the list its upstream offers. */
module ModelNames {
  import opened Strings

  function Filter(xs: seq<string>, p: string -> bool): (ys: seq<string>)
    ensures forall x :: x in ys <==> x in xs && p(x)
  {
    if xs == [] then []
    else Filter(xs[..|xs| - 1], p) + (if p(xs[|xs| - 1]) then [xs[|xs| - 1]] else [])
  }

  /** lo.Uniq: the first occurrence of every value. */
  function Uniq(xs: seq<string>): (ys: seq<string>)
    ensures forall x :: x in ys <==> x in xs
  {
    if xs == [] then []
    else
      var rest := xs[..|xs| - 1];
      if xs[|xs| - 1] in rest then Uniq(rest) else Uniq(rest) + [xs[|xs| - 1]]
  }

  /** normalizeModelNames: trim, drop what is empty, keep first occurrences. */
  function Normalize(xs: seq<string>): (ys: seq<string>)
    ensures forall y :: y in ys <==> y != "" && y in Trims(xs)
  {
    Uniq(Filter(Trims(xs), x => x != ""))
  }

  ghost predicate Distinct(xs: seq<string>) {
    forall i, j :: 0 <= i < j < |xs| ==> xs[i] != xs[j]
  }

  /** Names as the code keeps them: trimmed, not empty, no two alike. */
  ghost predicate Clean(xs: seq<string>) {
    Distinct(xs) && forall x :: x in xs ==> x != "" && TrimSpace(x) == x
  }

  lemma {:induction false} UniqDistinct(xs: seq<string>)
    ensures Distinct(Uniq(xs))
    ensures Distinct(xs) ==> Uniq(xs) == xs
  {
    if xs != [] {
      UniqDistinct(xs[..|xs| - 1]);
    }
  }

  lemma {:induction false} FilterDistinct(xs: seq<string>, p: string -> bool)
    requires Distinct(xs)
    ensures Distinct(Filter(xs, p))
  {
    if xs != [] {
      FilterDistinct(xs[..|xs| - 1], p);
    }
  }

  lemma {:induction false} FilterConcat(xs: seq<string>, ys: seq<string>, p: string -> bool)
    ensures Filter(xs + ys, p) == Filter(xs, p) + Filter(ys, p)
  {
    if ys == [] {
      assert xs + ys == xs;
    } else {
      assert (xs + ys)[..|xs + ys| - 1] == xs + ys[..|ys| - 1];
      FilterConcat(xs, ys[..|ys| - 1], p);
    }
  }

  /** Appending a value that passes. */
  lemma FilterOneMore(xs: seq<string>, x: string, p: string -> bool)
    requires p(x)
    ensures Filter(xs + [x], p) == Filter(xs, p) + [x]
  {
    assert (xs + [x])[..|xs|] == xs;
  }

  lemma {:induction false} FilterAll(xs: seq<string>, p: string -> bool)
    requires forall x :: x in xs ==> p(x)
    ensures Filter(xs, p) == xs
  {
    if xs != [] {
      var rest, last := xs[..|xs| - 1], xs[|xs| - 1];
      assert xs == rest + [last];
      FilterAll(rest, p);
      FilterOneMore(rest, last, p);
    }
  }

  lemma {:induction false} FilterAgree(xs: seq<string>, p: string -> bool, q: string -> bool)
    requires forall x :: x in xs ==> p(x) == q(x)
    ensures Filter(xs, p) == Filter(xs, q)
  {
    if xs != [] {
      assert xs[|xs| - 1] in xs;
      FilterAgree(xs[..|xs| - 1], p, q);
    }
  }

  lemma HasMember(xs: seq<string>)
    ensures xs != [] ==> exists x :: x in xs
  {
    if xs != [] {
      assert xs[0] in xs;
    }
  }

  lemma TrimTwice(s: string)
    ensures TrimSpace(TrimSpace(s)) == TrimSpace(s)
  {
    TrimKeeps(TrimSpace(s), IsSpace);
  }

  lemma UniqNext(xs: seq<string>, x: string)
    ensures Uniq(xs + [x]) == if x in xs then Uniq(xs) else Uniq(xs) + [x]
  {
    assert (xs + [x])[..|xs|] == xs;
  }

  lemma FilterLast(xs: seq<string>, x: string, p: string -> bool)
    ensures Filter(xs + [x], p) == if p(x) then Filter(xs, p) + [x] else Filter(xs, p)
  {
    assert (xs + [x])[..|xs|] == xs;
  }

  lemma FirstOrderNext(rest: seq<string>, last: string, kept: seq<string>, p: string -> bool)
    requires kept == Filter(rest, p) && InFirstOrder(Uniq(kept), rest)
    ensures InFirstOrder(Uniq(Filter(rest + [last], p)), rest + [last])
  {
    FilterLast(rest, last, p);
    FirstOrderStays(Uniq(kept), rest, last);
    UniqNext(kept, last);
    if p(last) && last !in kept {
      FirstOrderGrows(Uniq(kept), rest, last);
    }
  }

  /** lo.Uniq keeps first occurrences, in their order, also behind a filter. */
  lemma {:induction false} UniqFirstOrder(xs: seq<string>, p: string -> bool)
    ensures InFirstOrder(Uniq(Filter(xs, p)), xs)
  {
    if xs != [] {
      var rest, last := xs[..|xs| - 1], xs[|xs| - 1];
      UniqFirstOrder(rest, p);
      FirstOrderNext(rest, last, Filter(rest, p), p);
      assert xs == rest + [last];
    }
  }

  /** Normalised names come in the order in which they first occur. */
  lemma NormalizeFirstOrder(xs: seq<string>)
    ensures InFirstOrder(Normalize(xs), Trims(xs))
  {
    UniqFirstOrder(Trims(xs), x => x != "");
  }

  lemma NormalizeClean(xs: seq<string>)
    ensures Clean(Normalize(xs))
  {
    UniqDistinct(Filter(Trims(xs), x => x != ""));
    forall x | x in Trims(xs)
      ensures TrimSpace(x) == x
    {
      var i :| 0 <= i < |xs| && Trims(xs)[i] == x;
      TrimTwice(xs[i]);
    }
  }

  /** Clean names are a fixed point, so normalising is idempotent. */
  lemma NormalizeKeepsClean(xs: seq<string>)
    requires Clean(xs)
    ensures Normalize(xs) == xs
  {
    forall i | 0 <= i < |xs|
      ensures Trims(xs)[i] == xs[i]
    {
      assert xs[i] in xs;
    }
    assert Trims(xs) == xs;
    FilterAll(xs, x => x != "");
    UniqDistinct(xs);
  }

  lemma FilterClean(xs: seq<string>, p: string -> bool)
    requires Clean(xs)
    ensures Clean(Filter(xs, p)) && Normalize(Filter(xs, p)) == Filter(xs, p)
  {
    FilterDistinct(xs, p);
    NormalizeKeepsClean(Filter(xs, p));
  }

  // ----- the list operations -----

  function NotIn(xs: seq<string>): string -> bool {
    x => x !in xs
  }

  function Merge(base: seq<string>, appended: seq<string>): seq<string> {
    Normalize(base) + Filter(Normalize(appended), NotIn(Normalize(base)))
  }

  function Subtract(base: seq<string>, removed: seq<string>): seq<string> {
    Filter(Normalize(base), NotIn(Normalize(removed)))
  }

  function Intersect(base: seq<string>, allowed: seq<string>): seq<string> {
    var a := Normalize(allowed);
    Filter(Normalize(base), x => x in a)
  }

  lemma FilterNext(xs: seq<string>, i: nat, p: string -> bool)
    requires i < |xs|
    ensures p(xs[i]) ==> Filter(xs[..i + 1], p) == Filter(xs[..i], p) + [xs[i]]
    ensures !p(xs[i]) ==> Filter(xs[..i + 1], p) == Filter(xs[..i], p)
  {
    assert xs[..i + 1][..i] == xs[..i];
  }

  /** The loop of mergeModelNames: append what has not been seen. */
  method AppendUnseen(base: seq<string>, more: seq<string>) returns (merged: seq<string>)
    requires Distinct(more)
    ensures merged == base + Filter(more, NotIn(base))
  {
    merged := base;
    var seen := set x | x in base;
    var i := 0;
    while i < |more|
      invariant 0 <= i <= |more|
      invariant merged == base + Filter(more[..i], NotIn(base))
      invariant forall x :: x in base ==> x in seen
      invariant forall j :: i <= j < |more| && more[j] in seen ==> more[j] in base
    {
      FilterNext(more, i, NotIn(base));
      ghost var kept := Filter(more[..i], NotIn(base));
      if more[i] !in seen {
        seen := seen + {more[i]};
        merged := merged + [more[i]];
        assert base + kept + [more[i]] == base + (kept + [more[i]]);
      } else {
        assert more[i] in base;
      }
      i := i + 1;
    }
    assert more[..i] == more;
  }

  method MergeModelNames(base: seq<string>, appended: seq<string>) returns (merged: seq<string>)
    ensures merged == Merge(base, appended)
  {
    NormalizeClean(appended);
    merged := AppendUnseen(Normalize(base), Normalize(appended));
  }

  lemma CleanConcat(xs: seq<string>, ys: seq<string>)
    requires Clean(xs) && Clean(ys)
    requires forall y :: y in ys ==> y !in xs
    ensures Clean(xs + ys)
  {
    var zs := xs + ys;
    forall i, j | 0 <= i < j < |zs|
      ensures zs[i] != zs[j]
    {
      if i < |xs| <= j {
        assert xs[i] in xs && ys[j - |xs|] in ys;
      }
    }
  }

  lemma MergeClean(base: seq<string>, appended: seq<string>)
    ensures Clean(Merge(base, appended))
    ensures forall x :: x in Merge(base, appended) <==> x in Normalize(base) || x in Normalize(appended)
  {
    var b := Normalize(base);
    NormalizeClean(base);
    NormalizeClean(appended);
    FilterClean(Normalize(appended), NotIn(b));
    CleanConcat(b, Filter(Normalize(appended), NotIn(b)));
  }

  lemma SubtractClean(base: seq<string>, removed: seq<string>)
    ensures Clean(Subtract(base, removed))
    ensures forall x :: x in Subtract(base, removed) <==> x in Normalize(base) && x !in Normalize(removed)
  {
    NormalizeClean(base);
    FilterClean(Normalize(base), NotIn(Normalize(removed)));
  }

  lemma IntersectClean(base: seq<string>, allowed: seq<string>)
    ensures Clean(Intersect(base, allowed))
    ensures forall x :: x in Intersect(base, allowed) <==> x in Normalize(base) && x in Normalize(allowed)
  {
    NormalizeClean(base);
    FilterClean(Normalize(base), x => x in Normalize(allowed));
  }

  /** applySelectedModelChanges: adding wins over removing. */
  function ApplySelected(origin: seq<string>, add: seq<string>, remove: seq<string>): seq<string> {
    var a := Normalize(add);
    var r := Subtract(Normalize(remove), a);
    Subtract(Merge(origin, a), r)
  }

  /** The new list is the kept part of the old one in its order, then the new
      names in the order of the request. */
  lemma ApplySelectedExact(origin: seq<string>, add: seq<string>, remove: seq<string>)
    ensures var o, a, r := Normalize(origin), Normalize(add), Normalize(remove);
            ApplySelected(origin, add, remove) ==
            Filter(o, x => x in a || x !in r) + Filter(a, NotIn(o))
    ensures Clean(ApplySelected(origin, add, remove))
    ensures forall x :: x in ApplySelected(origin, add, remove) <==>
              (x in Normalize(origin) || x in Normalize(add)) && (x in Normalize(add) || x !in Normalize(remove))
  {
    var o, a, r := Normalize(origin), Normalize(add), Normalize(remove);
    NormalizeClean(origin);
    NormalizeClean(add);
    NormalizeClean(remove);
    NormalizeKeepsClean(a);
    NormalizeKeepsClean(r);
    var drop := Subtract(r, a);
    SubtractClean(r, a);
    NormalizeKeepsClean(drop);
    var m := Merge(origin, a);
    MergeClean(origin, a);
    NormalizeKeepsClean(m);
    SubtractClean(m, drop);
    FilterConcat(o, Filter(a, NotIn(o)), NotIn(drop));
    FilterAll(Filter(a, NotIn(o)), NotIn(drop));
    FilterAgree(o, NotIn(drop), x => x in a || x !in r);
  }
}

module UpstreamModels {
  import opened Strings
  import opened ModelNames

  /** regexp.MatchString(pattern, name), false for a pattern that does not compile. */
  type Matcher = (string, string) -> bool

  const REGEX := "regex:"

  predicate IsRegexRule(rule: string) {
    REGEX <= rule
  }

  predicate RuleMatches(matches: Matcher, rule: string, name: string) {
    if IsRegexRule(rule) then matches(TrimSpace(rule[|REGEX|..]), name) else rule == name
  }

  predicate Ignored(matches: Matcher, rules: seq<string>, name: string) {
    exists rule :: rule in rules && RuleMatches(matches, rule, name)
  }

  /** Names upstream offers that the channel already serves, directly or by redirect. */
  predicate Covered(local: seq<string>, mapping: map<string, string>, name: string) {
    name in Normalize(local) || name in mapping.Values
  }

  predicate ToAdd(matches: Matcher, local: seq<string>, ignored: seq<string>, mapping: map<string, string>,
                  name: string) {
    !Covered(local, mapping, name) && !Ignored(matches, Normalize(ignored), name)
  }

  predicate ToRemove(upstream: seq<string>, mapping: map<string, string>, name: string) {
    name !in mapping && name !in Normalize(upstream)
  }

  function PendingAdd(matches: Matcher, local: seq<string>, upstream: seq<string>, ignored: seq<string>,
                      mapping: map<string, string>): seq<string>
  {
    Normalize(Filter(Normalize(upstream), x => ToAdd(matches, local, ignored, mapping, x)))
  }

  function PendingRemove(local: seq<string>, upstream: seq<string>, mapping: map<string, string>): seq<string> {
    Normalize(Filter(Normalize(local), x => ToRemove(upstream, mapping, x)))
  }

  lemma PendingAddIs(matches: Matcher, local: seq<string>, upstream: seq<string>, ignored: seq<string>,
                     mapping: map<string, string>)
    ensures Clean(PendingAdd(matches, local, upstream, ignored, mapping))
    ensures forall x :: x in PendingAdd(matches, local, upstream, ignored, mapping) <==>
              x in Normalize(upstream) && ToAdd(matches, local, ignored, mapping, x)
  {
    NormalizeClean(upstream);
    FilterClean(Normalize(upstream), x => ToAdd(matches, local, ignored, mapping, x));
  }

  lemma PendingRemoveIs(local: seq<string>, upstream: seq<string>, mapping: map<string, string>)
    ensures Clean(PendingRemove(local, upstream, mapping))
    ensures forall x :: x in PendingRemove(local, upstream, mapping) <==>
              x in Normalize(local) && ToRemove(upstream, mapping, x)
  {
    NormalizeClean(local);
    FilterClean(Normalize(local), x => ToRemove(upstream, mapping, x));
  }

  /** The same in terms of the lists themselves: to add is what is offered, no local
      name, no target of a redirect, and neither spelled by an ignore rule nor matched
      by one that is a regular expression. */
  lemma PendingAddMeans(matches: Matcher, local: seq<string>, upstream: seq<string>, ignored: seq<string>,
                        mapping: map<string, string>, x: string)
    ensures x in PendingAdd(matches, local, upstream, ignored, mapping) <==>
            && x in Normalize(upstream) && x !in Normalize(local)
            && (forall source :: source in mapping ==> mapping[source] != x)
            && (forall rule :: rule in Normalize(ignored) ==>
                  if "regex:" <= rule then !matches(TrimSpace(rule[6..]), x) else rule != x)
  {
    PendingAddIs(matches, local, upstream, ignored, mapping);
    TargetMeans(mapping, x);
    IgnoredMeans(matches, Normalize(ignored), x);
  }

  lemma TargetMeans(mapping: map<string, string>, x: string)
    ensures x !in mapping.Values <==> forall source :: source in mapping ==> mapping[source] != x
  {
  }

  lemma RuleMeans(matches: Matcher, rule: string, x: string)
    ensures RuleMatches(matches, rule, x) <==>
            if "regex:" <= rule then matches(TrimSpace(rule[6..]), x) else rule == x
  {
  }

  lemma IgnoredMeans(matches: Matcher, rules: seq<string>, x: string)
    ensures !Ignored(matches, rules, x) <==>
            forall rule :: rule in rules ==>
              if "regex:" <= rule then !matches(TrimSpace(rule[6..]), x) else rule != x
  {
    forall rule | rule in rules
      ensures RuleMatches(matches, rule, x) <==>
              if "regex:" <= rule then matches(TrimSpace(rule[6..]), x) else rule == x
    {
      RuleMeans(matches, rule, x);
    }
  }

  /** To remove is what is a local name, no source of a redirect, and not offered. */
  lemma PendingRemoveMeans(local: seq<string>, upstream: seq<string>, mapping: map<string, string>, x: string)
    ensures x in PendingRemove(local, upstream, mapping) <==>
            x in Normalize(local) && x !in mapping.Keys && x !in Normalize(upstream)
  {
    PendingRemoveIs(local, upstream, mapping);
  }

  /** A redirect protects both its ends: the target is never added, the source never
      removed. */
  lemma RedirectsAreProtected(matches: Matcher, local: seq<string>, upstream: seq<string>, ignored: seq<string>,
                              mapping: map<string, string>, source: string)
    requires source in mapping
    ensures mapping[source] !in PendingAdd(matches, local, upstream, ignored, mapping)
    ensures source !in PendingRemove(local, upstream, mapping)
  {
    PendingAddMeans(matches, local, upstream, ignored, mapping, mapping[source]);
    PendingRemoveMeans(local, upstream, mapping, source);
  }

  /** What is to be added and what is to be removed never overlap. */
  lemma PendingDisjoint(matches: Matcher, local: seq<string>, upstream: seq<string>, ignored: seq<string>,
                        mapping: map<string, string>, x: string)
    ensures !(x in PendingAdd(matches, local, upstream, ignored, mapping)
              && x in PendingRemove(local, upstream, mapping))
  {
    PendingAddIs(matches, local, upstream, ignored, mapping);
    PendingRemoveIs(local, upstream, mapping);
  }

  // ----- detect, apply everything, detect again -----

  /** Every uncovered name that is ignored is ignored by a rule that is not itself
      among the names about to be added. */
  ghost predicate RulesSurvive(matches: Matcher, local: seq<string>, upstream: seq<string>, ignored: seq<string>,
                               mapping: map<string, string>) {
    var add := PendingAdd(matches, local, upstream, ignored, mapping);
    forall x :: x in Normalize(upstream) && !Covered(local, mapping, x) && Ignored(matches, Normalize(ignored), x) ==>
      exists rule :: rule in Normalize(ignored) && rule !in add && RuleMatches(matches, rule, x)
  }

  /** Nothing is left to remove once everything pending was applied. */
  lemma RemovalsSettle(matches: Matcher, local: seq<string>, upstream: seq<string>, ignored: seq<string>,
                       mapping: map<string, string>)
    ensures var add := PendingAdd(matches, local, upstream, ignored, mapping);
            var remove := PendingRemove(local, upstream, mapping);
            PendingRemove(ApplySelected(local, add, remove), upstream, mapping) == []
  {
    var add := PendingAdd(matches, local, upstream, ignored, mapping);
    var remove := PendingRemove(local, upstream, mapping);
    PendingAddIs(matches, local, upstream, ignored, mapping);
    PendingRemoveIs(local, upstream, mapping);
    NormalizeKeepsClean(add);
    NormalizeKeepsClean(remove);
    ApplySelectedExact(local, add, remove);
    var local' := ApplySelected(local, add, remove);
    NormalizeKeepsClean(local');
    PendingRemoveIs(local', upstream, mapping);
    HasMember(PendingRemove(local', upstream, mapping));
  }

  /** After applying everything, the uncovered names are those that were ignored. */
  lemma CoverageAfterApply(matches: Matcher, local: seq<string>, upstream: seq<string>, ignored: seq<string>,
                           mapping: map<string, string>, x: string)
    requires x in Normalize(upstream)
    ensures var add := PendingAdd(matches, local, upstream, ignored, mapping);
            var remove := PendingRemove(local, upstream, mapping);
            !Covered(ApplySelected(local, add, remove), mapping, x) <==>
            !Covered(local, mapping, x) && Ignored(matches, Normalize(ignored), x)
  {
    var add := PendingAdd(matches, local, upstream, ignored, mapping);
    var remove := PendingRemove(local, upstream, mapping);
    PendingAddIs(matches, local, upstream, ignored, mapping);
    PendingRemoveIs(local, upstream, mapping);
    NormalizeKeepsClean(add);
    NormalizeKeepsClean(remove);
    ApplySelectedExact(local, add, remove);
    NormalizeKeepsClean(ApplySelected(local, add, remove));
  }

  /** Detecting again after applying everything finds nothing, exactly when the
      ignore rules survive the additions. */
  lemma ApplyAllIsFixpointIff(matches: Matcher, local: seq<string>, upstream: seq<string>, ignored: seq<string>,
                              mapping: map<string, string>)
    ensures var add := PendingAdd(matches, local, upstream, ignored, mapping);
            var remove := PendingRemove(local, upstream, mapping);
            var local' := ApplySelected(local, add, remove);
            && PendingRemove(local', upstream, mapping) == []
            && (PendingAdd(matches, local', upstream, Subtract(ignored, add), mapping) == [] <==>
                RulesSurvive(matches, local, upstream, ignored, mapping))
  {
    var add := PendingAdd(matches, local, upstream, ignored, mapping);
    var local' := ApplySelected(local, add, PendingRemove(local, upstream, mapping));
    var ignored' := Subtract(ignored, add);
    RemovalsSettle(matches, local, upstream, ignored, mapping);
    PendingAddIs(matches, local, upstream, ignored, mapping);
    NormalizeKeepsClean(add);
    SubtractClean(ignored, add);
    NormalizeKeepsClean(ignored');
    PendingAddIs(matches, local', upstream, ignored', mapping);
    var again := PendingAdd(matches, local', upstream, ignored', mapping);
    forall x | x in Normalize(upstream)
      ensures x in again <==>
        !Covered(local, mapping, x) && Ignored(matches, Normalize(ignored), x) && !Ignored(matches, ignored', x)
    {
      CoverageAfterApply(matches, local, upstream, ignored, mapping, x);
    }
    HasMember(again);
  }

  /** A plain rule ignores the name it spells, so that name is never added. */
  lemma PlainRuleIsNotAdded(matches: Matcher, local: seq<string>, upstream: seq<string>, ignored: seq<string>,
                            mapping: map<string, string>, rule: string)
    requires rule in Normalize(ignored) && !(rule in Normalize(upstream) && IsRegexRule(rule))
    ensures rule !in PendingAdd(matches, local, upstream, ignored, mapping)
  {
    PendingAddIs(matches, local, upstream, ignored, mapping);
    assert !IsRegexRule(rule) ==> RuleMatches(matches, rule, rule);
  }

  /** In particular it is a fixpoint when no upstream name looks like a regex rule. */
  lemma ApplyAllIsFixpoint(matches: Matcher, local: seq<string>, upstream: seq<string>, ignored: seq<string>,
                           mapping: map<string, string>)
    requires forall x :: x in Normalize(upstream) ==> !IsRegexRule(x)
    ensures var add := PendingAdd(matches, local, upstream, ignored, mapping);
            var local' := ApplySelected(local, add, PendingRemove(local, upstream, mapping));
            && PendingRemove(local', upstream, mapping) == []
            && PendingAdd(matches, local', upstream, Subtract(ignored, add), mapping) == []
  {
    var add := PendingAdd(matches, local, upstream, ignored, mapping);
    PendingAddIs(matches, local, upstream, ignored, mapping);
    forall x | x in Normalize(upstream) && Ignored(matches, Normalize(ignored), x)
      ensures exists rule :: rule in Normalize(ignored) && rule !in add && RuleMatches(matches, rule, x)
    {
      var rule :| rule in Normalize(ignored) && RuleMatches(matches, rule, x);
      PlainRuleIsNotAdded(matches, local, upstream, ignored, mapping, rule);
    }
    ApplyAllIsFixpointIff(matches, local, upstream, ignored, mapping);
  }

  /** The proviso is needed: when a regex rule is itself offered as a model that is
      to be added, every model that only this rule ignores turns up afterwards. */
  lemma RegexLookAlikeBreaksFixpoint(matches: Matcher, local: seq<string>, upstream: seq<string>, ignored: seq<string>,
                                     mapping: map<string, string>, rule: string, name: string)
    requires rule in Normalize(ignored) && rule in PendingAdd(matches, local, upstream, ignored, mapping)
    requires name in Normalize(upstream) && !Covered(local, mapping, name)
    requires RuleMatches(matches, rule, name)
    requires forall r :: r in Normalize(ignored) && RuleMatches(matches, r, name) ==> r == rule
    ensures IsRegexRule(rule)
    ensures var add := PendingAdd(matches, local, upstream, ignored, mapping);
            var local' := ApplySelected(local, add, PendingRemove(local, upstream, mapping));
            name in PendingAdd(matches, local', upstream, Subtract(ignored, add), mapping)
  {
    var add := PendingAdd(matches, local, upstream, ignored, mapping);
    var local' := ApplySelected(local, add, PendingRemove(local, upstream, mapping));
    PendingAddIs(matches, local, upstream, ignored, mapping);
    assert !IsRegexRule(rule) ==> RuleMatches(matches, rule, rule);
    CoverageAfterApply(matches, local, upstream, ignored, mapping, name);
    NormalizeKeepsClean(add);
    SubtractClean(ignored, add);
    NormalizeKeepsClean(Subtract(ignored, add));
    PendingAddIs(matches, local', upstream, Subtract(ignored, add), mapping);
  }
}

module ChannelModels {
  import opened Strings
  import opened ModelNames
  import opened UpstreamModels

  datatype Fetched = Models(names: seq<string>) | FetchFailed

  /** Detection looks at local names and ignore rules only in normalised form. */
  lemma PendingAddCongruent(matches: Matcher, local: seq<string>, local': seq<string>, upstream: seq<string>,
                            ignored: seq<string>, ignored': seq<string>, mapping: map<string, string>)
    requires Normalize(local) == Normalize(local') && Normalize(ignored) == Normalize(ignored')
    ensures PendingAdd(matches, local, upstream, ignored, mapping) ==
            PendingAdd(matches, local', upstream, ignored', mapping)
  {
    FilterAgree(Normalize(upstream), x => ToAdd(matches, local, ignored, mapping, x),
                x => ToAdd(matches, local', ignored', mapping, x));
  }

  lemma PendingRemoveCongruent(local: seq<string>, local': seq<string>, upstream: seq<string>,
                               mapping: map<string, string>)
    requires Normalize(local) == Normalize(local')
    ensures PendingRemove(local, upstream, mapping) == PendingRemove(local', upstream, mapping)
  {
  }

  lemma ApplySelectedCongruent(origin: seq<string>, add: seq<string>, remove: seq<string>)
    ensures ApplySelected(Normalize(origin), add, remove) == ApplySelected(origin, add, remove)
  {
    NormalizeClean(origin);
    NormalizeKeepsClean(Normalize(origin));
  }

  lemma NormalizedIsEnough(base: seq<string>, allowed: seq<string>)
    ensures Intersect(base, Normalize(allowed)) == Intersect(base, allowed)
  {
    NormalizeClean(allowed);
    NormalizeKeepsClean(Normalize(allowed));
  }

  lemma SubtractNormalized(base: seq<string>, drop: seq<string>)
    ensures Subtract(Normalize(base), drop) == Subtract(base, drop)
  {
    NormalizeClean(base);
    NormalizeKeepsClean(Normalize(base));
  }

  /** Adding the pending names to the list appends exactly those. */
  lemma MergePending(matches: Matcher, local: seq<string>, upstream: seq<string>, ignored: seq<string>,
                     mapping: map<string, string>)
    ensures var add := PendingAdd(matches, local, upstream, ignored, mapping);
            Merge(Normalize(local), add) == Normalize(local) + add
  {
    var add := PendingAdd(matches, local, upstream, ignored, mapping);
    PendingAddIs(matches, local, upstream, ignored, mapping);
    NormalizeClean(local);
    NormalizeKeepsClean(Normalize(local));
    NormalizeKeepsClean(add);
    FilterAll(add, NotIn(Normalize(local)));
  }

  /** Clean names without commas survive the comma-separated column. */
  lemma StoredNames(names: seq<string>)
    requires Clean(names) && AllFree(names, ',')
    ensures Pieces(Join(names, ','), ',') == names
  {
    PiecesJoin(names, ',');
    if names != [] {
      assert names[0] in names && names[|names| - 1] in names;
    }
  }

  /** What an apply request leaves: ignored names without the accepted ones. */
  function IgnoredAfter(ignored: seq<string>, ignore: seq<string>, add: seq<string>): seq<string> {
    var merged := Merge(ignored, ignore);
    if |add| > 0 then Subtract(merged, add) else merged
  }

  /** Channel.GetModels on the stored column. */
  function ModelsIn(models: string): seq<string> {
    Pieces(models, ',')
  }

  class Channel {
    var models: string
    var mapping: map<string, string>
    var autoSync: bool
    var detected: seq<string>
    var removed: seq<string>
    var ignored: seq<string>
    var lastCheck: int

    /** Auto-sync: append the pending names, which are all new. */
    method AutoAdd(add: seq<string>, ghost before: seq<string>) returns (modelsChanged: bool, autoAdded: nat)
      requires |add| > 0
      requires before == Normalize(ModelsIn(models)) && Merge(before, add) == before + add
      modifies this`models
      ensures modelsChanged && autoAdded == |add|
      ensures models == Join(before + add, ',')
    {
      modelsChanged, autoAdded := false, 0;
      var origin := Normalize(ModelsIn(models));
      var merged := MergeModelNames(origin, add);
      if |merged| > |origin| {
        models := Join(merged, ',');
        autoAdded := |merged| - |origin|;
        modelsChanged := true;
      }
    }

    method Detect(matches: Matcher, upstream: seq<string>) returns (add: seq<string>, remove: seq<string>)
      ensures add == PendingAdd(matches, ModelsIn(models), upstream, ignored, mapping)
      ensures remove == PendingRemove(ModelsIn(models), upstream, mapping)
      ensures Merge(Normalize(ModelsIn(models)), add) == Normalize(ModelsIn(models)) + add
    {
      MergePending(matches, ModelsIn(models), upstream, ignored, mapping);
      add := PendingAdd(matches, ModelsIn(models), upstream, ignored, mapping);
      remove := PendingRemove(ModelsIn(models), upstream, mapping);
    }

    /** What a check with a successful fetch records. */
    method Record(add: seq<string>, remove: seq<string>, allowAuto: bool, ghost origin: seq<string>)
      returns (modelsChanged: bool, autoAdded: nat)
      requires origin == Normalize(ModelsIn(models)) && Merge(origin, add) == origin + add
      modifies this`models, this`detected, this`removed
      ensures removed == remove
      ensures modelsChanged == (allowAuto && autoSync && add != [])
      ensures modelsChanged ==> detected == [] && autoAdded == |add| && models == Join(origin + add, ',')
      ensures !modelsChanged ==> detected == add && autoAdded == 0 && models == old(models)
    {
      removed, detected := remove, add;
      modelsChanged, autoAdded := false, 0;
      if allowAuto && autoSync && |add| > 0 {
        detected := [];
        modelsChanged, autoAdded := AutoAdd(add, origin);
      }
    }

    /** checkAndPersistChannelUpstreamModelUpdates, given what the fetch returned. */
    method Check(matches: Matcher, fetched: Fetched, force: bool, allowAuto: bool, now: int, minInterval: int)
      returns (modelsChanged: bool, autoAdded: nat, failed: bool, add: seq<string>)
      modifies this`models, this`detected, this`removed, this`lastCheck
      // unless forced, a check soon after the last one does nothing
      ensures !force && old(lastCheck) > 0 && now - old(lastCheck) < minInterval ==>
        lastCheck == old(lastCheck) && !failed && !modelsChanged && autoAdded == 0 && models == old(models)
        && detected == old(detected) && removed == old(removed)
      // otherwise its time is recorded, and a failed fetch changes nothing else
      ensures force || old(lastCheck) <= 0 || now - old(lastCheck) >= minInterval ==>
        lastCheck == now && failed == fetched.FetchFailed?
      ensures failed ==>
        !modelsChanged && autoAdded == 0 && models == old(models)
        && detected == old(detected) && removed == old(removed)
      ensures (force || old(lastCheck) <= 0 || now - old(lastCheck) >= minInterval) && !failed ==>
        && add == PendingAdd(matches, ModelsIn(old(models)), fetched.names, ignored, mapping)
        && removed == PendingRemove(ModelsIn(old(models)), fetched.names, mapping)
        && modelsChanged == (allowAuto && autoSync && add != [])
        && (modelsChanged ==>
              detected == [] && autoAdded == |add| && models == Join(Normalize(ModelsIn(old(models))) + add, ','))
        && (!modelsChanged ==> detected == add && autoAdded == 0 && models == old(models))
    {
      modelsChanged, autoAdded, failed, add := false, 0, false, [];
      if !force && lastCheck > 0 && now - lastCheck < minInterval {
        return;
      }
      lastCheck := now;
      if fetched.FetchFailed? {
        failed := true;
        return;
      }
      modelsChanged, autoAdded, add := DetectAndRecord(matches, fetched.names, allowAuto);
    }

    /** The part of a check behind a successful fetch. */
    method DetectAndRecord(matches: Matcher, names: seq<string>, allowAuto: bool)
      returns (modelsChanged: bool, autoAdded: nat, add: seq<string>)
      modifies this`models, this`detected, this`removed
      ensures add == PendingAdd(matches, ModelsIn(old(models)), names, ignored, mapping)
      ensures removed == PendingRemove(ModelsIn(old(models)), names, mapping)
      ensures modelsChanged == (allowAuto && autoSync && add != [])
      ensures modelsChanged ==>
        detected == [] && autoAdded == |add| && models == Join(Normalize(ModelsIn(old(models))) + add, ',')
      ensures !modelsChanged ==> detected == add && autoAdded == 0 && models == old(models)
    {
      var remove;
      add, remove := Detect(matches, names);
      modelsChanged, autoAdded := Record(add, remove, allowAuto, Normalize(ModelsIn(models)));
    }

    /** The part of applyChannelUpstreamModelUpdates that selects: only pending names count. */
    method Select(addInput: seq<string>, ignoreInput: seq<string>, removeInput: seq<string>)
      returns (add: seq<string>, ignore: seq<string>, remove: seq<string>)
      ensures add == Intersect(addInput, detected)
      ensures ignore == Intersect(ignoreInput, detected)
      ensures remove == Subtract(Intersect(removeInput, removed), add)
    {
      NormalizedIsEnough(addInput, detected);
      NormalizedIsEnough(ignoreInput, detected);
      NormalizedIsEnough(removeInput, removed);
      add := Intersect(addInput, Normalize(detected));
      ignore := Intersect(ignoreInput, Normalize(detected));
      remove := Intersect(removeInput, Normalize(removed));
      remove := Subtract(remove, add);
    }

    /** The part that rewrites the model list. */
    method Rewrite(add: seq<string>, remove: seq<string>) returns (changed: bool, next: seq<string>)
      modifies this`models
      ensures next == ApplySelected(ModelsIn(old(models)), add, remove)
      ensures changed <==> Normalize(ModelsIn(old(models))) != next
      ensures models == if changed then Join(next, ',') else old(models)
    {
      var origin := Normalize(ModelsIn(models));
      ApplySelectedCongruent(ModelsIn(models), add, remove);
      next := ApplySelected(origin, add, remove);
      changed := origin != next;
      if changed {
        models := Join(next, ',');
      }
    }

    method SettleIgnored(add: seq<string>, ignore: seq<string>)
      modifies this`ignored
      ensures ignored == IgnoredAfter(old(ignored), ignore, add)
    {
      ignored := MergeModelNames(ignored, ignore);
      if |add| > 0 {
        ignored := Subtract(ignored, add);
      }
    }

    method SettlePending(accepted: seq<string>, remove: seq<string>)
      modifies this`detected, this`removed
      ensures detected == Subtract(old(detected), accepted)
      ensures removed == Subtract(old(removed), remove)
    {
      SubtractNormalized(detected, accepted);
      SubtractNormalized(removed, remove);
      detected := Subtract(Normalize(detected), accepted);
      removed := Subtract(Normalize(removed), remove);
    }

    /** The part that updates the settings. */
    method Settle(added: seq<string>, ignore: seq<string>, dropped: seq<string>, now: int)
      modifies this`ignored, this`detected, this`removed, this`lastCheck
      ensures lastCheck == now
      ensures ignored == IgnoredAfter(old(ignored), ignore, added)
      ensures detected == Subtract(old(detected), added + ignore)
      ensures removed == Subtract(old(removed), dropped)
    {
      var accepted := added + ignore;
      SettlePending(accepted, dropped);
      SettleIgnored(added, ignore);
      lastCheck := now;
    }

    /** applyChannelUpstreamModelUpdates for any request lists. */
    method Apply(addInput: seq<string>, ignoreInput: seq<string>, removeInput: seq<string>, now: int)
      returns (added: seq<string>, ignore: seq<string>, dropped: seq<string>, changed: bool, next: seq<string>)
      modifies this`models, this`ignored, this`detected, this`removed, this`lastCheck
      ensures lastCheck == now
      ensures added == Intersect(addInput, old(detected))
      ensures ignore == Intersect(ignoreInput, old(detected))
      ensures dropped == Subtract(Intersect(removeInput, old(removed)), added)
      ensures next == ApplySelected(ModelsIn(old(models)), added, dropped)
      ensures changed <==> Normalize(ModelsIn(old(models))) != next
      ensures models == if changed then Join(next, ',') else old(models)
      ensures ignored == IgnoredAfter(old(ignored), ignore, added)
      ensures detected == Subtract(old(detected), added + ignore)
      ensures removed == Subtract(old(removed), dropped)
    {
      added, ignore, dropped := Select(addInput, ignoreInput, removeInput);
      changed, next := Rewrite(added, dropped);
      Settle(added, ignore, dropped, now);
    }
  }

  /** What an apply request means, name by name. */
  lemma PartialAcceptanceIsExact(pending: seq<string>, addInput: seq<string>, ignoreInput: seq<string>,
                                 ignored: seq<string>, x: string)
    ensures var add, ignore := Intersect(addInput, pending), Intersect(ignoreInput, pending);
            // the rest stays pending: neither accepted nor ignored
            && (x in Subtract(pending, add + ignore) <==>
                x in Normalize(pending) && x !in Normalize(addInput) && x !in Normalize(ignoreInput))
            // an accepted name never stays ignored, the others keep or gain their rule
            && (x in IgnoredAfter(ignored, ignore, add) <==>
                x !in add && (x in Normalize(ignored) || x in ignore))
  {
    var add, ignore := Intersect(addInput, pending), Intersect(ignoreInput, pending);
    IntersectClean(addInput, pending);
    IntersectClean(ignoreInput, pending);
    SubtractClean(pending, add + ignore);
    NormalizeKeepsClean(add);
    NormalizeKeepsClean(ignore);
    forall y | y in add + ignore
      ensures TrimSpace(y) == y && y != ""
    {
    }
    NormalizeOfTrimmed(add + ignore, x);
    MergeClean(ignored, ignore);
    NormalizeKeepsClean(Merge(ignored, ignore));
    SubtractClean(Merge(ignored, ignore), add);
  }

  lemma NormalizeOfTrimmed(xs: seq<string>, x: string)
    requires forall y :: y in xs ==> TrimSpace(y) == y && y != ""
    ensures x in Normalize(xs) <==> x in xs
  {
    assert forall i :: 0 <= i < |xs| ==> xs[i] in xs && Trims(xs)[i] == xs[i];
    assert Trims(xs) == xs;
  }

  // ----- detect, apply everything, detect again, through the stored column -----

  lemma NormalizeKeepsFree(xs: seq<string>, c: char)
    requires AllFree(xs, c)
    ensures forall x :: x in Normalize(xs) ==> Free(x, c)
  {
    forall x | x in Normalize(xs)
      ensures Free(x, c)
    {
      var i :| 0 <= i < |xs| && Trims(xs)[i] == x;
      TrimKeepsFree(xs[i], c);
    }
  }

  lemma IntersectSelf(xs: seq<string>)
    requires Clean(xs)
    ensures Intersect(xs, xs) == xs
  {
    NormalizeKeepsClean(xs);
    FilterAll(xs, x => x in xs);
  }

  lemma SubtractDisjoint(xs: seq<string>, ys: seq<string>)
    requires Clean(xs) && Clean(ys) && forall x :: x in xs ==> x !in ys
    ensures Subtract(xs, ys) == xs
  {
    NormalizeKeepsClean(xs);
    NormalizeKeepsClean(ys);
    FilterAll(xs, NotIn(ys));
  }

  /** After everything pending was accepted, the rules are those that are not models now. */
  lemma IgnoredAfterAll(ignored: seq<string>, none: seq<string>, add: seq<string>)
    requires Clean(add) && none == []
    ensures Normalize(IgnoredAfter(ignored, none, add)) == Normalize(Subtract(ignored, add))
  {
    var n := Normalize(ignored);
    NormalizeClean(ignored);
    NormalizeKeepsClean(n);
    NormalizeKeepsClean(none);
    assert Merge(ignored, none) == n;
    if add == [] {
      SubtractDisjoint(n, add);
      SubtractNormalized(ignored, add);
    } else {
      SubtractNormalized(ignored, add);
    }
  }

  lemma ModelsAreFree(models: string)
    ensures forall x :: x in Normalize(ModelsIn(models)) ==> Free(x, ',')
  {
    NormalizeKeepsFree(ModelsIn(models), ',');
  }

  /** Names without commas, in a list that is stored and read back. */
  ghost predicate AllStorable(names: seq<string>) {
    forall x :: x in names ==> Free(x, ',')
  }

  /** The rewritten column reads back as the new list, exactly when no added name
      holds a comma. */
  lemma RewrittenReadsBackIff(models: string, add: seq<string>, remove: seq<string>, column: string)
    requires Clean(add)
    requires var next := ApplySelected(ModelsIn(models), add, remove);
             column == if Normalize(ModelsIn(models)) != next then Join(next, ',') else models
    ensures Normalize(ModelsIn(column)) == ApplySelected(ModelsIn(models), add, remove) <==> AllStorable(add)
  {
    var next := ApplySelected(ModelsIn(models), add, remove);
    ApplySelectedExact(ModelsIn(models), add, remove);
    NormalizeKeepsClean(add);
    ModelsAreFree(column);
    if AllStorable(add) && Normalize(ModelsIn(models)) != next {
      ModelsAreFree(models);
      forall i | 0 <= i < |next| ensures Free(next[i], ',') { assert next[i] in next; }
      StoredNames(next);
      NormalizeKeepsClean(next);
    }
  }

  /** Rules that are gone ignore nothing more. */
  lemma FewerRulesIgnoreLess(matches: Matcher, ignored: seq<string>, none: seq<string>, add: seq<string>, x: string)
    requires Clean(add) && none == [] && !Ignored(matches, Normalize(ignored), x)
    ensures !Ignored(matches, Normalize(IgnoredAfter(ignored, none, add)), x)
  {
    IgnoredAfterAll(ignored, none, add);
    SubtractClean(ignored, add);
    NormalizeKeepsClean(Subtract(ignored, add));
  }

  /** A pending name with a comma, such as "a,b", is pending again, whatever column the
      accepted names are stored in. */
  lemma CommaNameComesBack(matches: Matcher, models: string, upstream: seq<string>, ignored: seq<string>,
                           mapping: map<string, string>, column: string, none: seq<string>, x: string)
    requires none == [] && !Free(x, ',')
    requires x in PendingAdd(matches, ModelsIn(models), upstream, ignored, mapping)
    ensures var add := PendingAdd(matches, ModelsIn(models), upstream, ignored, mapping);
            x in PendingAdd(matches, ModelsIn(column), upstream, IgnoredAfter(ignored, none, add), mapping)
  {
    var add := PendingAdd(matches, ModelsIn(models), upstream, ignored, mapping);
    PendingAddIs(matches, ModelsIn(models), upstream, ignored, mapping);
    PendingAddIs(matches, ModelsIn(column), upstream, IgnoredAfter(ignored, none, add), mapping);
    ModelsAreFree(column);
    FewerRulesIgnoreLess(matches, ignored, none, add, x);
  }

  /** Whatever the stored column, the rules and the redirects: accepting everything
      that was detected, and ignoring none of it, leaves nothing to detect exactly when
      no accepted name holds a comma and the ignore rules survive. */
  lemma AcceptingAllSettlesIff(matches: Matcher, models: string, upstream: seq<string>, ignored: seq<string>,
                               mapping: map<string, string>, column: string, none: seq<string>)
    requires none == []
    requires var next := ApplySelected(ModelsIn(models),
                           PendingAdd(matches, ModelsIn(models), upstream, ignored, mapping),
                           PendingRemove(ModelsIn(models), upstream, mapping));
             column == if Normalize(ModelsIn(models)) != next then Join(next, ',') else models
    ensures var add := PendingAdd(matches, ModelsIn(models), upstream, ignored, mapping);
            PendingAdd(matches, ModelsIn(column), upstream, IgnoredAfter(ignored, none, add), mapping) == []
            && PendingRemove(ModelsIn(column), upstream, mapping) == []
            <==> Settles(matches, models, upstream, ignored, mapping)
  {
    var local := ModelsIn(models);
    var add := PendingAdd(matches, local, upstream, ignored, mapping);
    var remove := PendingRemove(local, upstream, mapping);
    var next := ApplySelected(local, add, remove);
    PendingAddIs(matches, local, upstream, ignored, mapping);
    if AllStorable(add) {
      RewrittenReadsBackIff(models, add, remove, column);
      ApplyAllIsFixpointIff(matches, local, upstream, ignored, mapping);
      IgnoredAfterAll(ignored, none, add);
      ApplySelectedExact(local, add, remove);
      NormalizeKeepsClean(next);
      PendingAddCongruent(matches, ModelsIn(column), next, upstream, IgnoredAfter(ignored, none, add),
                          Subtract(ignored, add), mapping);
      PendingRemoveCongruent(ModelsIn(column), next, upstream, mapping);
    } else {
      var x :| x in add && !Free(x, ',');
      CommaNameComesBack(matches, models, upstream, ignored, mapping, column, none, x);
    }
  }

  ghost predicate Settles(matches: Matcher, models: string, upstream: seq<string>, ignored: seq<string>,
                          mapping: map<string, string>) {
    && AllStorable(PendingAdd(matches, ModelsIn(models), upstream, ignored, mapping))
    && RulesSurvive(matches, ModelsIn(models), upstream, ignored, mapping)
  }

  lemma RequestEverything(matches: Matcher, local: seq<string>, upstream: seq<string>, ignored: seq<string>,
                          mapping: map<string, string>)
    ensures EverythingIs(PendingAdd(matches, local, upstream, ignored, mapping),
                         PendingRemove(local, upstream, mapping))
  {
    var add := PendingAdd(matches, local, upstream, ignored, mapping);
    var remove := PendingRemove(local, upstream, mapping);
    PendingAddIs(matches, local, upstream, ignored, mapping);
    PendingRemoveIs(local, upstream, mapping);
    IntersectSelf(add);
    IntersectSelf(remove);
    SubtractDisjoint(remove, add);
  }

  /** A request naming everything pending selects everything pending. */
  ghost predicate EverythingIs(add: seq<string>, remove: seq<string>) {
    && Intersect(add, add) == add
    && Subtract(Intersect(remove, remove), add) == remove
  }

  lemma IntersectNothing(none: seq<string>, ys: seq<string>)
    requires none == []
    ensures Intersect(none, ys) == []
  {
  }

  /** A request that names everything pending, and ignores nothing. */
  method AcceptAll(c: Channel, none: seq<string>, now: int) returns (next: seq<string>)
    requires EverythingIs(c.detected, c.removed) && none == []
    modifies c`models, c`detected, c`removed, c`ignored, c`lastCheck
    ensures next == ApplySelected(ModelsIn(old(c.models)), old(c.detected), old(c.removed))
    ensures c.models == if Normalize(ModelsIn(old(c.models))) != next then Join(next, ',') else old(c.models)
    ensures c.ignored == IgnoredAfter(old(c.ignored), none, old(c.detected))
  {
    IntersectNothing(none, c.detected);
    var added, ignore, dropped, changed;
    added, ignore, dropped, changed, next := c.Apply(c.detected, none, c.removed, now);
  }

  /** Check, then accept everything that was found. */
  method DetectAndAccept(c: Channel, matches: Matcher, upstream: seq<string>, none: seq<string>, now: int)
    returns (add: seq<string>, remove: seq<string>, next: seq<string>)
    requires none == []
    modifies c`models, c`detected, c`removed, c`ignored, c`lastCheck
    ensures add == PendingAdd(matches, ModelsIn(old(c.models)), upstream, old(c.ignored), c.mapping)
    ensures remove == PendingRemove(ModelsIn(old(c.models)), upstream, c.mapping)
    ensures next == ApplySelected(ModelsIn(old(c.models)), add, remove)
    ensures c.models == if Normalize(ModelsIn(old(c.models))) != next then Join(next, ',') else old(c.models)
    ensures c.ignored == IgnoredAfter(old(c.ignored), none, add)
  {
    RequestEverything(matches, ModelsIn(c.models), upstream, c.ignored, c.mapping);
    var _, _, _, _ := c.Check(matches, Models(upstream), true, false, now, 0);
    add, remove := c.detected, c.removed;
    next := AcceptAll(c, none, now);
  }

  /** One round of check, apply-all and check again on a channel: nothing is pending,
      exactly when no accepted name holds a comma and the ignore rules survive. */
  method Reconcile(c: Channel, matches: Matcher, upstream: seq<string>, now: int)
    modifies c
    ensures c.detected == [] && c.removed == [] <==>
            Settles(matches, old(c.models), upstream, old(c.ignored), old(c.mapping))
  {
    var none: seq<string> := [];
    ghost var models, ignored := c.models, c.ignored;
    var add, remove, next := DetectAndAccept(c, matches, upstream, none, now);
    AcceptingAllSettlesIff(matches, models, upstream, ignored, c.mapping, c.models, none);
    Recheck(c, matches, upstream, now);
  }

  /** A forced check that only detects. */
  method Recheck(c: Channel, matches: Matcher, upstream: seq<string>, now: int)
    modifies c`models, c`detected, c`removed, c`lastCheck
    ensures c.detected == PendingAdd(matches, ModelsIn(old(c.models)), upstream, c.ignored, c.mapping)
    ensures c.removed == PendingRemove(ModelsIn(old(c.models)), upstream, c.mapping)
  {
    var _, _, _, _ := c.Check(matches, Models(upstream), true, false, now, 0);
  }

  // ----- the failing families are inhabited -----

  lemma CleanPair(pair: seq<string>)
    requires |pair| == 2 && pair[0] != pair[1]
    requires forall i :: 0 <= i < 2 ==> pair[i] != "" && TrimSpace(pair[i]) == pair[i]
    ensures Normalize(pair) == pair
  {
    assert Clean(pair);
    NormalizeKeepsClean(pair);
  }

  lemma CleanOne(one: seq<string>)
    requires |one| == 1 && one[0] != "" && TrimSpace(one[0]) == one[0]
    ensures Normalize(one) == one
  {
    assert Clean(one);
    NormalizeKeepsClean(one);
  }

  lemma NoNames(none: seq<string>)
    requires none == []
    ensures Normalize(none) == none
  {
    assert Clean(none);
    NormalizeKeepsClean(none);
  }

  lemma NothingCovered(none: seq<string>, mapping: map<string, string>, x: string)
    requires none == [] && mapping == map[]
    ensures !Covered(none, mapping, x)
  {
    NoNames(none);
  }

  lemma OneRule(matches: Matcher, rules: seq<string>, x: string)
    requires |rules| == 1 && rules[0] != "" && TrimSpace(rules[0]) == rules[0]
    ensures Ignored(matches, Normalize(rules), x) <==> RuleMatches(matches, rules[0], x)
    ensures forall r :: r in Normalize(rules) <==> r == rules[0]
  {
    CleanOne(rules);
    assert rules[0] in rules;
  }

  /** What is offered, not covered and not ignored is pending. */
  lemma IsPending(matches: Matcher, local: seq<string>, upstream: seq<string>, ignored: seq<string>,
                  mapping: map<string, string>, x: string)
    requires x in Normalize(upstream) && !Covered(local, mapping, x) && !Ignored(matches, Normalize(ignored), x)
    ensures x in PendingAdd(matches, local, upstream, ignored, mapping)
  {
    PendingAddIs(matches, local, upstream, ignored, mapping);
  }

  /** Such inputs exist for every regex rule that matches a name and not itself: a
      channel without models ignores the rule, and both are offered. */
  lemma RegexLookAlikeInstance(matches: Matcher, pair: seq<string>, rules: seq<string>, none: seq<string>,
                               mapping: map<string, string>)
    requires none == [] && mapping == map[] && |rules| == 1 && |pair| == 2 && rules[0] == pair[0] != pair[1]
    requires forall i :: 0 <= i < 2 ==> pair[i] != "" && TrimSpace(pair[i]) == pair[i]
    requires IsRegexRule(pair[0]) && RuleMatches(matches, pair[0], pair[1]) && !RuleMatches(matches, pair[0], pair[0])
    ensures var add := PendingAdd(matches, none, pair, rules, mapping);
            var local' := ApplySelected(none, add, PendingRemove(none, pair, mapping));
            pair[1] in PendingAdd(matches, local', pair, Subtract(rules, add), mapping)
  {
    CleanPair(pair);
    assert pair[0] in pair && pair[1] in pair;
    NothingCovered(none, mapping, pair[0]);
    NothingCovered(none, mapping, pair[1]);
    OneRule(matches, rules, pair[0]);
    OneRule(matches, rules, pair[1]);
    IsPending(matches, none, pair, rules, mapping, pair[0]);
    RegexLookAlikeBreaksFixpoint(matches, none, pair, rules, mapping, pair[0], pair[1]);
  }

  /** And for every name with a comma, such as "a,b": a channel without models is
      offered it. */
  lemma CommaInstance(matches: Matcher, models: string, one: seq<string>, column: string, none: seq<string>,
                      mapping: map<string, string>)
    requires none == [] && mapping == map[] && models == "" && |one| == 1
    requires one[0] != "" && TrimSpace(one[0]) == one[0] && !Free(one[0], ',')
    ensures var add := PendingAdd(matches, ModelsIn(models), one, none, mapping);
            one[0] in PendingAdd(matches, ModelsIn(column), one, IgnoredAfter(none, none, add), mapping)
  {
    CleanOne(one);
    assert one[0] in one;
    NoNames(none);
    NothingCovered(ModelsIn(models), mapping, one[0]);
    IsPending(matches, ModelsIn(models), one, none, mapping, one[0]);
    CommaNameComesBack(matches, models, one, none, mapping, column, none, one[0]);
  }
}
