/** Comparing the tool calls of a run with the expected ones (eval/match.go):
    exact, in order, and in any order by Kuhn's augmenting paths. */
module Matching {
  import opened Sizes

  /** Which expected call (right) each actual call (left) satisfies. */
  datatype Problem = Problem(actuals: nat, expecteds: nat, eq: (nat, nat) -> bool)
  {
    predicate Fits(a: int, e: int) {
      0 <= a < actuals && 0 <= e < expecteds && eq(a, e)
    }
  }

  // ----- any order -----

  ghost predicate IsAssignment(p: Problem, f: seq<int>) {
    && |f| == p.expecteds
    && (forall e | 0 <= e < |f| :: p.Fits(f[e], e))
    && Injective(f)
  }

  predicate Injective(f: seq<int>) {
    forall i, j | 0 <= i < j < |f| :: f[i] != f[j]
  }

  /** Every expected call can be given an actual call of its own. */
  ghost predicate Assignable(p: Problem) {
    exists f :: IsAssignment(p, f)
  }

  /** owner gives actual calls to expected ones that they fit; -1 is free. */
  predicate Owns(p: Problem, owner: seq<int>) {
    && |owner| == p.actuals
    && forall a | 0 <= a < |owner| :: owner[a] == -1 || p.Fits(a, owner[a])
  }

  ghost predicate Augmented(o: seq<int>, o': seq<int>, e: int) {
    && |o| == |o'| && -1 in o
    && multiset(o') == multiset(o) - multiset{-1} + multiset{e}
  }

  lemma AugmentThrough(o: seq<int>, o1: seq<int>, a: nat, e1: int, e: int)
    requires a < |o1| && Augmented(o, o1, e1) && o1[a] == e1
    ensures Augmented(o, o1[a := e], e)
  {
    assert multiset(o1[a := e]) == multiset(o1) - multiset{e1} + multiset{e};
  }

  lemma AugmentFree(o: seq<int>, a: nat, e: int)
    requires a < |o| && o[a] == -1
    ensures Augmented(o, o[a := e], e)
  {
    assert multiset(o[a := e]) == multiset(o) - multiset{-1} + multiset{e};
  }

  /** Nothing outside seen fits e, and what owns the newly seen has no other
      choice either. */
  ghost predicate Exhausted(p: Problem, owner: seq<int>, seen0: seq<bool>, seen: seq<bool>)
    requires |owner| == |seen0| == |seen|
  {
    forall a, b | 0 <= a < |seen| && 0 <= b < |seen| && seen[a] && !seen0[a] ::
      owner[a] != -1 && (p.Fits(b, owner[a]) ==> seen[b])
  }

  ghost function Unseen(seen: seq<bool>): set<int> {
    set a | 0 <= a < |seen| && !seen[a]
  }

  lemma ExhaustedThrough(p: Problem, owner: seq<int>, s0: seq<bool>, s1: seq<bool>, s2: seq<bool>)
    requires |owner| == |s0| == |s1| == |s2| && Exhausted(p, owner, s0, s1) && Exhausted(p, owner, s1, s2)
    requires forall b | 0 <= b < |s1| && s1[b] :: s2[b]
    ensures Exhausted(p, owner, s0, s2)
  {}

  /** try: find e an actual call, moving owners to other calls if it must. On
      failure nothing moved, and the calls seen are a dead end. */
  method Try(p: Problem, e: nat, owner: array<int>, seen: array<bool>) returns (ok: bool)
    requires e < p.expecteds && owner.Length == seen.Length == p.actuals && Owns(p, owner[..])
    modifies owner, seen
    ensures Owns(p, owner[..])
    ensures forall a | 0 <= a < seen.Length && old(seen[a]) :: seen[a] && owner[a] == old(owner[a])
    ensures ok ==> Augmented(old(owner[..]), owner[..], e)
    ensures !ok ==> owner[..] == old(owner[..]) && Exhausted(p, owner[..], old(seen[..]), seen[..])
    ensures !ok ==> forall a | p.Fits(a, e) :: seen[a]
    decreases Unseen(seen[..]), 1
  {
    ghost var o, s0 := owner[..], seen[..];
    for a := 0 to p.actuals
      invariant owner[..] == o
      invariant forall b | 0 <= b < seen.Length && s0[b] :: seen[b]
      invariant forall b | 0 <= b < a && p.Fits(b, e) :: seen[b]
      invariant Exhausted(p, o, s0, seen[..])
    {
      if seen[a] || !p.eq(a, e) { continue; }
      ghost var s1 := seen[..];
      assert Unseen(s1) <= Unseen(s0);
      ok := TryCall(p, e, a, owner, seen);
      if ok { return; }
      ExhaustedThrough(p, o, s0, s1, seen[..]);
    }
    ok := false;
  }

  /** Give call a to e, if a is free or its owner can move. */
  method TryCall(p: Problem, e: nat, a: nat, owner: array<int>, seen: array<bool>) returns (ok: bool)
    requires p.Fits(a, e) && owner.Length == seen.Length == p.actuals && Owns(p, owner[..]) && !seen[a]
    modifies owner, seen
    ensures Owns(p, owner[..]) && seen[a]
    ensures forall b | 0 <= b < seen.Length && old(seen[b]) :: seen[b] && owner[b] == old(owner[b])
    ensures ok ==> Augmented(old(owner[..]), owner[..], e)
    ensures !ok ==> owner[..] == old(owner[..]) && Exhausted(p, owner[..], old(seen[..]), seen[..])
    decreases Unseen(seen[..]), 0
  {
    ghost var o, s0 := owner[..], seen[..];
    seen[a] := true;
    assert a in Unseen(s0) && a !in Unseen(seen[..]);
    if owner[a] < 0 {
      owner[a] := e;
      AugmentFree(o, a, e);
      assert owner[..] == o[a := e];
      return true;
    }
    var e1 := owner[a];
    ok := Try(p, e1, owner, seen);
    if ok {
      ghost var o1 := owner[..];
      AugmentThrough(o, o1, a, e1, e);
      owner[a] := e;
      assert owner[..] == o1[a := e];
    }
  }

  /** Each of the first k expected calls owns one actual call; no other does. */
  ghost predicate OwnedUpTo(owner: seq<int>, k: nat) {
    && (forall e | 0 <= e < k :: multiset(owner)[e] == 1)
    && (forall e | e >= k :: multiset(owner)[e] == 0)
  }

  lemma NobodyOwns(owner: seq<int>)
    requires forall a | 0 <= a < |owner| :: owner[a] == -1
    ensures OwnedUpTo(owner, 0)
  {
    forall e | e >= 0 ensures multiset(owner)[e] == 0 {
      assert e !in owner;
    }
  }

  lemma {:induction false} CountTwice(s: seq<int>, i: nat, j: nat)
    requires i < j < |s| && s[i] == s[j]
    ensures multiset(s)[s[i]] >= 2
  {
    assert s == s[..j] + [s[j]] + s[j + 1..];
    assert s[i] in s[..j];
  }

  /** The owners of distinct calls are distinct. */
  lemma OwnersDiffer(owner: seq<int>, k: nat, i: nat, j: nat)
    requires OwnedUpTo(owner, k) && i < j < |owner| && owner[i] >= 0
    ensures owner[i] != owner[j]
  {
    if owner[i] == owner[j] { CountTwice(owner, i, j); }
  }

  /** Hall's condition fails: the expected calls in es fit only actual calls in
      calls, of which there are fewer. */
  lemma TooFewChoices(p: Problem, es: set<int>, calls: set<int>)
    requires es <= UpTo(p.expecteds) && |calls| < |es|
    requires forall a, e | e in es && p.Fits(a, e) :: a in calls
    ensures !Assignable(p)
  {
    forall f | IsAssignment(p, f) ensures false {
      ImageSize(es, f, p.expecteds);
      SubsetSize(set e | e in es :: f[e], calls);
    }
  }

  lemma OwnerSet(owner: seq<int>, k: nat, calls: set<int>)
    requires OwnedUpTo(owner, k) && forall a | a in calls :: 0 <= a < |owner| && owner[a] >= 0
    ensures |set a | a in calls :: owner[a]| == |calls|
    ensures k !in set a | a in calls :: owner[a]
  {
    assert calls <= UpTo(|owner|);
    forall i, j | i in calls && j in calls && i != j ensures owner[i] != owner[j] {
      OwnersDiffer(owner, k, if i < j then i else j, if i < j then j else i);
    }
    ImageSize(calls, owner, |owner|);
    assert k !in multiset(owner);
  }

  lemma DeadEnd(p: Problem, owner: seq<int>, k: nat, seen: seq<bool>)
    requires Owns(p, owner) && OwnedUpTo(owner, k) && k < p.expecteds && |seen| == |owner|
    requires forall a | 0 <= a < |seen| && seen[a] :: owner[a] != -1
    requires forall a, b | 0 <= a < |seen| && seen[a] && p.Fits(b, owner[a]) :: seen[b]
    requires forall a | p.Fits(a, k) :: seen[a]
    ensures !Assignable(p)
  {
    var calls := set a | 0 <= a < |seen| && seen[a];
    var owners := set a | a in calls :: owner[a];
    OwnerSet(owner, k, calls);
    TooFewChoices(p, owners + {k}, calls);
  }

  lemma FullyOwned(p: Problem, owner: seq<int>)
    requires Owns(p, owner) && OwnedUpTo(owner, p.expecteds)
    ensures Assignable(p)
  {
    var f := seq(p.expecteds, e requires 0 <= e < p.expecteds => OwnedCall(owner, e));
    forall e | 0 <= e < p.expecteds ensures p.Fits(f[e], e) && owner[f[e]] == e {
      assert e in multiset(owner) && e in owner;
    }
    assert IsAssignment(p, f);
  }

  function OwnedCall(owner: seq<int>, e: int): (a: int)
    ensures e in owner ==> 0 <= a < |owner| && owner[a] == e
  {
    if owner == [] then 0 else if owner[|owner| - 1] == e then |owner| - 1 else OwnedCall(owner[..|owner| - 1], e)
  }

  lemma AugmentedOwns(o: seq<int>, o': seq<int>, k: nat)
    requires Augmented(o, o', k) && OwnedUpTo(o, k)
    ensures OwnedUpTo(o', k + 1)
  {}

  lemma FewerActuals(p: Problem)
    requires p.expecteds > p.actuals
    ensures !Assignable(p)
  {
    var es, calls := UpTo(p.expecteds), UpTo(p.actuals);
    TooFewChoices(p, es, calls);
  }

  /** anyOrder is exact: it says yes precisely when every expected call can have
      an actual call of its own, whatever the relation between them. */
  method AnyOrder(p: Problem) returns (ok: bool)
    ensures ok <==> Assignable(p)
  {
    if p.expecteds > p.actuals {
      FewerActuals(p);
      return false;
    }
    var owner := new int[p.actuals](_ => -1);
    NobodyOwns(owner[..]);
    for e := 0 to p.expecteds
      invariant Owns(p, owner[..]) && OwnedUpTo(owner[..], e)
    {
      var seen := new bool[p.actuals](_ => false);
      ghost var o := owner[..];
      var found := Try(p, e, owner, seen);
      if !found {
        DeadEnd(p, owner[..], e, seen[..]);
        return false;
      }
      AugmentedOwns(o, owner[..], e);
    }
    FullyOwned(p, owner[..]);
    ok := true;
  }

  // ----- in order, exact -----

  /** f places the first |f| expected calls, in order, among the first n actual
      calls. */
  ghost predicate Embeds(p: Problem, f: seq<int>, n: int) {
    && |f| <= p.expecteds && n <= p.actuals
    && (forall i | 0 <= i < |f| :: f[i] < n && p.Fits(f[i], i))
    && (forall i, j | 0 <= i < j < |f| :: f[i] < f[j])
  }

  ghost predicate Embeddable(p: Problem) {
    exists f :: Embeds(p, f, p.actuals) && |f| == p.expecteds
  }

  predicate Same(p: Problem) {
    p.actuals == p.expecteds && forall i | 0 <= i < p.expecteds :: p.Fits(i, i)
  }

  method Exact(p: Problem) returns (ok: bool)
    ensures ok <==> Same(p)
  {
    if p.actuals != p.expecteds { return false; }
    for i := 0 to p.expecteds
      invariant forall j | 0 <= j < i :: p.Fits(j, j)
    {
      if !p.eq(i, i) {
        assert !p.Fits(i, i);
        return false;
      }
    }
    ok := true;
  }

  /** Taking each expected call at the first actual call that fits it loses
      nothing: the greedy scan succeeds precisely when some strictly increasing
      placement exists. */
  method InOrder(p: Problem) returns (ok: bool)
    ensures ok <==> Embeddable(p)
  {
    var i := 0;
    ghost var f: seq<int> := [];
    forall h | Embeds(p, h, 0) ensures |h| <= 0 { NoPlace(p, h); }
    for a := 0 to p.actuals
      invariant i <= p.expecteds && |f| == i && Embeds(p, f, a)
      invariant forall h | Embeds(p, h, a) :: |h| <= i
    {
      forall h | Embeds(p, h, a + 1) ensures |h| <= i || (|h| == i + 1 && p.Fits(a, i)) {
        LastPlace(p, h, a);
      }
      if i < p.expecteds && p.eq(a, i) {
        f := f + [a];
        i := i + 1;
      }
    }
    ok := i == p.expecteds;
  }

  lemma LastPlace(p: Problem, h: seq<int>, a: nat)
    requires a < p.actuals && Embeds(p, h, a + 1)
    ensures Embeds(p, h, a) || (h != [] && h[|h| - 1] == a && p.Fits(a, |h| - 1) && Embeds(p, h[..|h| - 1], a))
  {
    if h != [] {
      var last := h[|h| - 1];
      assert forall i | 0 <= i < |h| - 1 :: h[i] < last;
    }
  }

  lemma NoPlace(p: Problem, h: seq<int>)
    requires Embeds(p, h, 0)
    ensures h == []
  {
    assert h == [] || p.Fits(h[0], 0);
  }

  /** Exact implies in order, in order implies any order. */
  lemma StricterMatches(p: Problem)
    ensures Same(p) ==> Embeddable(p)
    ensures Embeddable(p) ==> Assignable(p)
  {
    if Same(p) {
      assert Embeds(p, seq(p.expecteds, i => i), p.actuals);
    }
    if f :| Embeds(p, f, p.actuals) && |f| == p.expecteds {
      assert IsAssignment(p, f);
    }
  }

  // ----- when a call matches -----

  datatype Json =
    | Null
    | Bool(b: bool)
    | Number(n: real)
    | String(s: string)
    | Array(elems: seq<Json>)
    | Object(fields: map<string, Json>)

  /** jsonSubset: exp is contained in act. */
  predicate JsonSubset(act: Json, exp: Json) {
    match exp
    case Null => true
    case Object(e) => act.Object? && forall k | k in e :: k in act.fields && JsonSubset(act.fields[k], e[k])
    case Array(e) =>
      act.Array? && |act.elems| == |e| && forall i | 0 <= i < |e| :: JsonSubset(act.elems[i], e[i])
    case _ => act == exp
  }

  lemma {:induction false} SubsetReflexive(x: Json)
    ensures JsonSubset(x, x)
  {
    match x
    case Object(e) => forall k | k in e ensures JsonSubset(e[k], e[k]) { SubsetReflexive(e[k]); }
    case Array(e) => forall i | 0 <= i < |e| ensures JsonSubset(e[i], e[i]) { SubsetReflexive(e[i]); }
    case _ =>
  }

  lemma {:induction false} SubsetTransitive(a: Json, b: Json, c: Json)
    requires JsonSubset(a, b) && JsonSubset(b, c)
    ensures JsonSubset(a, c)
    decreases c
  {
    match c
    case Object(e) =>
      forall k | k in e ensures k in a.fields && JsonSubset(a.fields[k], e[k]) {
        SubsetTransitive(a.fields[k], b.fields[k], e[k]);
      }
    case Array(e) =>
      forall i | 0 <= i < |e| ensures JsonSubset(a.elems[i], e[i]) {
        SubsetTransitive(a.elems[i], b.elems[i], e[i]);
      }
    case _ =>
  }

  datatype Step = Key(k: string) | Index(i: nat)

  datatype Spot = Nowhere | Spot(v: Json)

  /** What is found in j by going along path. */
  function At(j: Json, path: seq<Step>): Spot
    decreases |path|
  {
    if path == [] then Spot(j)
    else
      match j
      case Object(f) => if path[0].Key? && path[0].k in f then At(f[path[0].k], path[1..]) else Nowhere
      case Array(xs) => if path[0].Index? && path[0].i < |xs| then At(xs[path[0].i], path[1..]) else Nowhere
      case _ => Nowhere
  }

  /** What is expected at a place is there: null asks for anything, an object for
      an object, an array for one as long, all else for itself. */
  predicate Pinned(e: Spot, a: Spot) {
    match e
    case Nowhere => true
    case Spot(Null) => a.Spot?
    case Spot(Object(_)) => a.Spot? && a.v.Object?
    case Spot(Array(xs)) => a.Spot? && a.v.Array? && |a.v.elems| == |xs|
    case Spot(_) => a == e
  }

  predicate Met(act: Json, exp: Json, path: seq<Step>) {
    Pinned(At(exp, path), At(act, path))
  }

  /** Containment, place by place: every place of the expected value is met. */
  lemma {:induction false} SubsetIs(act: Json, exp: Json)
    ensures JsonSubset(act, exp) <==> forall path :: Met(act, exp, path)
  {
    if path :| !Met(act, exp, path) {
      if JsonSubset(act, exp) { SubsetPins(act, exp, path); }
    } else {
      PinsSubset(act, exp);
    }
  }

  lemma {:induction false} SubsetPins(act: Json, exp: Json, path: seq<Step>)
    requires JsonSubset(act, exp)
    ensures Met(act, exp, path)
    decreases |path|
  {
    if path != [] {
      match exp
      case Object(e) =>
        if path[0].Key? && path[0].k in e { SubsetPins(act.fields[path[0].k], e[path[0].k], path[1..]); }
      case Array(e) =>
        if path[0].Index? && path[0].i < |e| { SubsetPins(act.elems[path[0].i], e[path[0].i], path[1..]); }
      case _ =>
    }
  }

  lemma {:induction false} PinsSubset(act: Json, exp: Json)
    requires forall path :: Met(act, exp, path)
    ensures JsonSubset(act, exp)
    decreases exp
  {
    assert Met(act, exp, []);
    match exp
    case Object(e) =>
      forall k | k in e ensures k in act.fields && JsonSubset(act.fields[k], e[k]) {
        assert [Key(k)][1..] == [] && At(exp, [Key(k)]) == Spot(e[k]);
        assert Met(act, exp, [Key(k)]);
        forall path ensures Met(act.fields[k], e[k], path) { AlongFirst(act, exp, Key(k), path); }
        PinsSubset(act.fields[k], e[k]);
      }
    case Array(e) =>
      forall i | 0 <= i < |e| ensures JsonSubset(act.elems[i], e[i]) {
        forall path ensures Met(act.elems[i], e[i], path) { AlongFirst(act, exp, Index(i), path); }
        PinsSubset(act.elems[i], e[i]);
      }
    case _ =>
  }

  lemma AlongFirst(act: Json, exp: Json, s: Step, path: seq<Step>)
    requires forall p :: Met(act, exp, p)
    ensures Met(act, exp, [s] + path) && ([s] + path)[1..] == path
  {}

  datatype ToolCall = ToolCall(name: string, args: string)

  /** decode: the JSON value of trimmed, non-empty text, if it is valid. */
  datatype Options = Options(ignoreArgs: bool, subset: bool, mcp: bool)

  datatype Decoded = Bad | Value(v: Json)

  /** decodeArgs: absent, null and {} are all no arguments. */
  function DecodeArgs(decode: string -> Decoded, raw: string): Decoded {
    if raw == "" then Value(Null)
    else if decode(raw) == Value(Object(map[])) then Value(Null)
    else decode(raw)
  }

  function FirstIndex(s: string, sep: string): int {
    if |s| < |sep| then -1
    else if s[..|sep|] == sep then 0
    else if s == "" then -1
    else
      var i := FirstIndex(s[1..], sep);
      if i < 0 then -1 else i + 1
  }

  predicate OccursAt(s: string, sep: string, k: int) {
    0 <= k <= |s| - |sep| && s[k..k + |sep|] == sep
  }

  lemma {:induction false} FirstIndexIs(s: string, sep: string)
    requires sep != ""
    ensures var i := FirstIndex(s, sep);
      if i < 0 then i == -1 && forall k :: !OccursAt(s, sep, k)
      else OccursAt(s, sep, i) && forall k | k < i :: !OccursAt(s, sep, k)
  {
    if |s| >= |sep| && s[..|sep|] != sep {
      FirstIndexIs(s[1..], sep);
      forall k ensures OccursAt(s, sep, k) <==> OccursAt(s[1..], sep, k - 1) {
        if 1 <= k <= |s| - |sep| { assert s[k..k + |sep|] == s[1..][k - 1..k - 1 + |sep|]; }
        if k == 0 { assert s[0..|sep|] == s[..|sep|]; }
      }
      var i := FirstIndex(s[1..], sep);
      if i >= 0 {
        assert OccursAt(s, sep, i + 1);
        forall k | k < i + 1 ensures !OccursAt(s, sep, k) { assert !OccursAt(s[1..], sep, k - 1); }
      } else {
        forall k ensures !OccursAt(s, sep, k) { assert !OccursAt(s[1..], sep, k - 1); }
      }
    } else if |s| >= |sep| {
      assert s[0..|sep|] == s[..|sep|];
    }
  }

  /** mcp__server__tool, split at the first two "__", has tool as its rest. */
  predicate NameMatches(actual: string, expected: string, mcp: bool) {
    actual == expected ||
    (mcp && "mcp__" <= actual &&
     var rest := actual[5..];
     var i := FirstIndex(rest, "__");
     0 <= i <= |rest| - 2 && rest[i + 2..] == expected)
  }

  /** tool is what a server's prefix, which holds no "__" of its own, leaves. */
  predicate Prefixed(actual: string, server: string, tool: string) {
    actual == "mcp__" + server + "__" + tool && forall i | 0 <= i < |server| :: !OccursAt(server + "__", "__", i)
  }

  lemma NameMatchesIs(actual: string, expected: string, mcp: bool)
    ensures NameMatches(actual, expected, mcp) <==>
      actual == expected || (mcp && exists server :: Prefixed(actual, server, expected))
  {
    hide FirstIndex, Prefixed, OccursAt;
    if "mcp__" <= actual {
      var i := FirstIndex(actual[5..], "__");
      if 0 <= i <= |actual| - 7 && actual[5..][i + 2..] == expected { FoundIsPrefixed(actual, expected); }
    }
    if server :| Prefixed(actual, server, expected) { PrefixedIsFound(actual, server, expected); }
  }

  lemma {:induction false} FoundIsPrefixed(actual: string, tool: string)
    requires "mcp__" <= actual
    requires var i := FirstIndex(actual[5..], "__"); 0 <= i <= |actual| - 7 && actual[5..][i + 2..] == tool
    ensures exists server :: Prefixed(actual, server, tool)
  {
    var rest := actual[5..];
    var i := FirstIndex(rest, "__");
    var server := rest[..i];
    FirstIndexIs(rest, "__");
    hide FirstIndex;
    assert rest == server + rest[i..i + 2] + tool;
    assert actual == "mcp__" + rest == "mcp__" + server + "__" + tool;
    SameOccurrences(server, tool);
    assert Prefixed(actual, server, tool);
  }

  lemma {:induction false} PrefixedIsFound(actual: string, server: string, tool: string)
    requires Prefixed(actual, server, tool)
    ensures "mcp__" <= actual && FirstIndex(actual[5..], "__") == |server| && actual[5..][|server| + 2..] == tool
    ensures |server| <= |actual| - 7
  {
    var rest := server + "__" + tool;
    assert actual == "mcp__" + rest && actual[5..] == rest;
    SameOccurrences(server, tool);
    FirstIndexIs(rest, "__");
    hide FirstIndex;
    assert rest[|server|..|server| + 2] == "__" && OccursAt(rest, "__", |server|);
  }

  lemma SameOccurrences(server: string, tool: string)
    ensures forall k | 0 <= k < |server| ::
      OccursAt(server + "__", "__", k) <==> OccursAt(server + "__" + tool, "__", k)
  {
    forall k | 0 <= k < |server|
      ensures OccursAt(server + "__", "__", k) <==> OccursAt(server + "__" + tool, "__", k)
    {
      assert (server + "__")[k..k + 2] == (server + "__" + tool)[k..k + 2];
    }
  }

  /** Arguments are trimmed text already. */
  predicate ArgsMatch(decode: string -> Decoded, actual: string, expected: string, subset: bool) {
    var a, e := DecodeArgs(decode, actual), DecodeArgs(decode, expected);
    if a.Bad? || e.Bad? then actual == expected
    else if subset then JsonSubset(a.v, e.v)
    else a == e
  }

  predicate CallMatches(decode: string -> Decoded, a: ToolCall, e: ToolCall, o: Options) {
    NameMatches(a.name, e.name, o.mcp) && (o.ignoreArgs || ArgsMatch(decode, a.args, e.args, o.subset))
  }

  /** No text, null and {} are no arguments. */
  predicate NoArgs(decode: string -> Decoded, raw: string) {
    raw == "" || decode(raw) == Value(Null) || decode(raw) == Value(Object(map[]))
  }

  /** When a call matches, case by case. */
  lemma CallMatchesIs(decode: string -> Decoded, a: ToolCall, e: ToolCall, o: Options)
    ensures CallMatches(decode, a, e, o) <==>
      && (a.name == e.name || (o.mcp && exists server :: Prefixed(a.name, server, e.name)))
      && (o.ignoreArgs ||
          if NoArgs(decode, e.args) then NoArgs(decode, a.args) || (o.subset && decode(a.args).Value?)
          else if NoArgs(decode, a.args) then false
          else if decode(a.args).Bad? || decode(e.args).Bad? then a.args == e.args
          else if o.subset then JsonSubset(decode(a.args).v, decode(e.args).v)
          else decode(a.args) == decode(e.args))
  {
    NameMatchesIs(a.name, e.name, o.mcp);
  }

  /** o' turns on what o turns on, and perhaps more. */
  predicate Looser(o: Options, o': Options) {
    (o.ignoreArgs ==> o'.ignoreArgs) && (o.subset ==> o'.subset) && (o.mcp ==> o'.mcp)
  }

  lemma LooserCallMatches(decode: string -> Decoded, a: ToolCall, e: ToolCall, o: Options, o': Options)
    requires Looser(o, o') && CallMatches(decode, a, e, o)
    ensures CallMatches(decode, a, e, o')
  {
    var v := DecodeArgs(decode, a.args);
    if v.Value? { SubsetReflexive(v.v); }
  }

  datatype MatchType = ExactMatch | InOrderMatch | AnyOrderMatch

  function ProblemOf(decode: string -> Decoded, actual: seq<ToolCall>, expected: seq<ToolCall>, o: Options): Problem {
    Problem(|actual|, |expected|, (a: nat, e: nat) =>
      a < |actual| && e < |expected| && CallMatches(decode, actual[a], expected[e], o))
  }

  ghost predicate Matches(p: Problem, mt: MatchType) {
    match mt
    case ExactMatch => Same(p)
    case InOrderMatch => Embeddable(p)
    case AnyOrderMatch => Assignable(p)
  }

  method MatchTrajectory(decode: string -> Decoded, actual: seq<ToolCall>, expected: seq<ToolCall>, mt: MatchType,
          o: Options)
    returns (ok: bool)
    ensures ok <==> Matches(ProblemOf(decode, actual, expected, o), mt)
    ensures mt.ExactMatch? ==>
      (ok <==> |actual| == |expected| && forall i | 0 <= i < |actual| :: CallMatches(decode, actual[i], expected[i], o))
    ensures mt.InOrderMatch? ==>
      (ok <==> exists f :: Placed(decode, actual, expected, o, f) && forall d, e | 0 <= d < e < |f| :: f[d] < f[e])
    ensures mt.AnyOrderMatch? ==>
      (ok <==> exists f :: Placed(decode, actual, expected, o, f) && forall d, e | 0 <= d < e < |f| :: f[d] != f[e])
  {
    var p := ProblemOf(decode, actual, expected, o);
    EqualPlace(decode, actual, expected, o);
    PlacementsAre(decode, actual, expected, o);
    match mt
    case ExactMatch => ok := Exact(p);
    case InOrderMatch => ok := InOrder(p);
    case AnyOrderMatch => ok := AnyOrder(p);
  }

  /** f gives each expected call an actual call that it matches. */
  ghost predicate Placed(decode: string -> Decoded, actual: seq<ToolCall>, expected: seq<ToolCall>, o: Options,
          f: seq<int>)
  {
    && |f| == |expected|
    && forall e | 0 <= e < |f| :: 0 <= f[e] < |actual| && CallMatches(decode, actual[f[e]], expected[e], o)
  }

  lemma ProblemIs(decode: string -> Decoded, actual: seq<ToolCall>, expected: seq<ToolCall>, o: Options, a: int, e: int)
    ensures ProblemOf(decode, actual, expected, o).Fits(a, e) <==>
      0 <= a < |actual| && 0 <= e < |expected| && CallMatches(decode, actual[a], expected[e], o)
  {
    hide CallMatches;
  }

  lemma EqualPlace(decode: string -> Decoded, actual: seq<ToolCall>, expected: seq<ToolCall>, o: Options)
    ensures Same(ProblemOf(decode, actual, expected, o)) <==>
      |actual| == |expected| && forall i | 0 <= i < |actual| :: CallMatches(decode, actual[i], expected[i], o)
  {
    var p := ProblemOf(decode, actual, expected, o);
    assert p.actuals == |actual| && p.expecteds == |expected|;
    forall i { ProblemIs(decode, actual, expected, o, i, i); }
    hide CallMatches, ProblemOf, Problem.Fits;
    if |actual| == |expected| && forall i | 0 <= i < |actual| :: CallMatches(decode, actual[i], expected[i], o) {
      assert forall i | 0 <= i < p.expecteds :: p.Fits(i, i);
    }
    if Same(p) {
      forall i | 0 <= i < |actual| ensures CallMatches(decode, actual[i], expected[i], o) { assert p.Fits(i, i); }
    }
  }

  lemma PlacedFits(decode: string -> Decoded, actual: seq<ToolCall>, expected: seq<ToolCall>, o: Options, f: seq<int>)
    ensures var p := ProblemOf(decode, actual, expected, o);
      Placed(decode, actual, expected, o, f) <==> |f| == |expected| && forall e | 0 <= e < |f| :: p.Fits(f[e], e)
  {
    var p := ProblemOf(decode, actual, expected, o);
    assert p.actuals == |actual| && p.expecteds == |expected|;
    forall e | 0 <= e < |f| { ProblemIs(decode, actual, expected, o, f[e], e); }
    hide CallMatches, ProblemOf, Problem.Fits;
    if |f| == |expected| && forall e | 0 <= e < |f| :: p.Fits(f[e], e) {
      forall e | 0 <= e < |f| ensures 0 <= f[e] < |actual| && CallMatches(decode, actual[f[e]], expected[e], o) {
        assert p.Fits(f[e], e);
      }
    }
  }

  lemma PlacementsAre(decode: string -> Decoded, actual: seq<ToolCall>, expected: seq<ToolCall>, o: Options)
    ensures var p := ProblemOf(decode, actual, expected, o);
      && (Embeddable(p) <==>
            exists f :: Placed(decode, actual, expected, o, f) && forall d, e | 0 <= d < e < |f| :: f[d] < f[e])
      && (Assignable(p) <==>
            exists f :: Placed(decode, actual, expected, o, f) && forall d, e | 0 <= d < e < |f| :: f[d] != f[e])
  {
    var p := ProblemOf(decode, actual, expected, o);
    assert p.expecteds == |expected| && p.actuals == |actual|;
    hide ProblemOf, Placed, CallMatches;
    if f :| Embeds(p, f, p.actuals) && |f| == p.expecteds { PlacedFits(decode, actual, expected, o, f); }
    if f :| IsAssignment(p, f) { PlacedFits(decode, actual, expected, o, f); }
    if f :| Placed(decode, actual, expected, o, f) && forall d, e | 0 <= d < e < |f| :: f[d] < f[e] {
      PlacedFits(decode, actual, expected, o, f);
      assert Embeds(p, f, p.actuals);
    }
    if f :| Placed(decode, actual, expected, o, f) && forall d, e | 0 <= d < e < |f| :: f[d] != f[e] {
      PlacedFits(decode, actual, expected, o, f);
      assert IsAssignment(p, f);
    }
  }

  /** An option never turns a match into a mismatch, in any mode. */
  lemma OptionsOnlyLoosen(decode: string -> Decoded, actual: seq<ToolCall>, expected: seq<ToolCall>, mt: MatchType,
          o: Options, o': Options)
    requires Looser(o, o') && Matches(ProblemOf(decode, actual, expected, o), mt)
    ensures Matches(ProblemOf(decode, actual, expected, o'), mt)
  {
    var p, p' := ProblemOf(decode, actual, expected, o), ProblemOf(decode, actual, expected, o');
    forall a, e | p.Fits(a, e) ensures p'.Fits(a, e) {
      LooserCallMatches(decode, actual[a], expected[e], o, o');
    }
    match mt
    case ExactMatch =>
    case InOrderMatch =>
      var f :| Embeds(p, f, p.actuals) && |f| == p.expecteds;
      assert Embeds(p', f, p'.actuals);
    case AnyOrderMatch =>
      var f :| IsAssignment(p, f);
      assert IsAssignment(p', f);
  }
}
