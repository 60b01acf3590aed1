/** Claim trust: corroboration over independence groups, tier ceilings and statuses. */
module Trust {
  import opened Prelude
  import opened Domain
  import opened Rounding
  import opened Products
  import opened Sequences
  import opened Analysis

  datatype Evidence = Evidence(reliability: real, group: string)

  datatype TrustResult = TrustResult(
    score: real,
    status: ClaimStatus,
    corroboration: real,
    independentSources: nat,
    recency: real)

  function TierBase(tier: SourceTier): real {
    match tier
    case Primary => 0.92
    case VerifiedThirdParty => 0.85
    case Aggregator => 0.65
    case SelfReported => 0.40
    case Inferred => 0.25
  }

  function HalfLifeDays(category: ClaimCategory): nat
    ensures HalfLifeDays(category) > 0
  {
    match category
    case Traction => 90
    case Revenue => 120
    case Team => 365
    case Market => 180
    case Product => 180
    case Technology => 365
    case Funding => 540
    case Legal => 540
    case Other => 180
  }

  // ---------------------------------------------------------------- corroboration

  function Weight(item: Evidence): (r: real)
    ensures 0.0 <= r <= 1.0
  {
    Clamp(item.reliability, 0.0, 1.0)
  }

  /** What one item contributes: its weight for the first item of its group, a quarter of it afterwards. */
  function Share(item: Evidence, groups: set<string>): (r: real)
    ensures 0.0 <= r <= 1.0
  {
    if item.group !in groups then Weight(item) else Weight(item) * 0.25
  }

  function OfGroup(group: string): Evidence -> bool {
    (item: Evidence) => item.group == group
  }

  function Members(evidence: seq<Evidence>, group: string): seq<Evidence> {
    Select(OfGroup(group), evidence)
  }

  function Groups(evidence: seq<Evidence>): set<string> {
    set item <- evidence :: item.group
  }

  /** The doubt left by repeated members of one group: each counts for a quarter. */
  function Quarters(items: seq<Evidence>): (r: real)
    ensures 0.0 < r <= 1.0
  {
    if items == [] then 1.0
    else
      var doubt := 1.0 - Weight(items[|items| - 1]) * 0.25;
      Fraction(Quarters(items[..|items| - 1]), doubt);
      Times(Quarters(items[..|items| - 1]), doubt)
  }

  /** The doubt left by one group: its first member at full weight, the others a quarter each. */
  function GroupDoubt(items: seq<Evidence>): (r: real)
    ensures 0.0 <= r <= 1.0
  {
    if items == [] then 1.0
    else
      Fraction(Quarters(items[1..]), 1.0 - Weight(items[0]));
      Times(Quarters(items[1..]), 1.0 - Weight(items[0]))
  }

  ghost function Pick(groups: set<string>): (group: string)
    requires groups != {}
    ensures group in groups
  {
    var group :| group in groups;
    group
  }

  /** The doubt left by a set of groups: the product of their doubts. */
  ghost function Doubt(groups: set<string>, evidence: seq<Evidence>): (r: real)
    ensures 0.0 <= r <= 1.0
  {
    if groups == {} then 1.0
    else
      var group := Pick(groups);
      Fraction(Doubt(groups - {group}, evidence), GroupDoubt(Members(evidence, group)));
      Times(Doubt(groups - {group}, evidence), GroupDoubt(Members(evidence, group)))
  }

  /** How far independent evidence backs a claim: what remains after every group's doubt. */
  ghost function Corroboration(evidence: seq<Evidence>): (r: real)
    ensures 0.0 <= r <= 1.0
  {
    1.0 - Doubt(Groups(evidence), evidence)
  }

  /** Any group may be split off the product first. */
  lemma {:induction false} DoubtSplit(groups: set<string>, evidence: seq<Evidence>, group: string)
    requires group in groups
    ensures Doubt(groups, evidence) == Times(Doubt(groups - {group}, evidence), GroupDoubt(Members(evidence, group)))
  {
    var picked := Pick(groups);
    if picked != group {
      DoubtSplit(groups - {picked}, evidence, group);
      DoubtSplit(groups - {group}, evidence, picked);
      assert groups - {picked} - {group} == groups - {group} - {picked};
      Swap(Doubt(groups - {picked} - {group}, evidence),
        GroupDoubt(Members(evidence, group)), GroupDoubt(Members(evidence, picked)));
    }
  }

  /** Less doubt in every group is less doubt in all. */
  lemma {:induction false} DoubtMonotone(groups: set<string>, weaker: seq<Evidence>, stronger: seq<Evidence>)
    requires forall group <- groups :: GroupDoubt(Members(stronger, group)) <= GroupDoubt(Members(weaker, group))
    ensures Doubt(groups, stronger) <= Doubt(groups, weaker)
  {
    if groups != {} {
      var group := Pick(groups);
      DoubtMonotone(groups - {group}, weaker, stronger);
      Monotone(Doubt(groups - {group}, stronger), Doubt(groups - {group}, weaker),
        GroupDoubt(Members(stronger, group)), GroupDoubt(Members(weaker, group)));
    }
  }

  /** A group without members leaves no doubt behind. */
  lemma DoubtEmptyGroup(groups: set<string>, evidence: seq<Evidence>, group: string)
    requires group !in Groups(evidence)
    ensures Doubt(groups + {group}, evidence) == Doubt(groups, evidence)
  {
    if group in groups {
      assert groups + {group} == groups;
    } else {
      DoubtSplit(groups + {group}, evidence, group);
      assert groups + {group} - {group} == groups;
      NoMembers(evidence, group);
    }
  }

  lemma NoMembers(evidence: seq<Evidence>, group: string)
    requires group !in Groups(evidence)
    ensures Members(evidence, group) == []
  {
    var members := Members(evidence, group);
    if members != [] {
      SelectMember(OfGroup(group), evidence, members[0]);
      assert false;
    }
  }

  lemma SomeMembers(evidence: seq<Evidence>, group: string)
    requires group in Groups(evidence)
    ensures Members(evidence, group) != []
  {
    var item :| item in evidence && item.group == group;
    SelectMember(OfGroup(group), evidence, item);
  }

  lemma GroupsAppend(evidence: seq<Evidence>, item: Evidence)
    ensures Groups(evidence + [item]) == Groups(evidence) + {item.group}
  {
    var longer := evidence + [item];
    forall x | x in longer ensures x.group in Groups(evidence) + {item.group} {
      assert x in evidence || x == item;
    }
    forall g | g in Groups(evidence) + {item.group} ensures g in Groups(longer) {
      if g == item.group {
        assert item in longer;
      } else {
        var x :| x in evidence && x.group == g;
        assert x in longer;
      }
    }
  }

  lemma MembersAppend(evidence: seq<Evidence>, item: Evidence, group: string)
    ensures Members(evidence + [item], group)
         == Members(evidence, group) + if item.group == group then [item] else []
  {
    SelectAppend(OfGroup(group), evidence, [item]);
    SelectOne(OfGroup(group), item);
  }

  lemma {:induction false} DoubtAppendWithin(groups: set<string>, evidence: seq<Evidence>, item: Evidence)
    requires item.group in groups
    ensures Doubt(groups, evidence + [item])
         == Times(Doubt(groups, evidence),
                  1.0 - if Members(evidence, item.group) == [] then Weight(item) else Weight(item) * 0.25)
  {
    var longer, group := evidence + [item], item.group;
    var others, members := groups - {group}, Members(evidence, item.group);
    forall g | g in others ensures Members(longer, g) == Members(evidence, g) { MembersAppend(evidence, item, g); }
    DoubtMonotone(others, evidence, longer);
    DoubtMonotone(others, longer, evidence);
    DoubtSplit(groups, longer, group);
    DoubtSplit(groups, evidence, group);
    MembersAppend(evidence, item, group);
    GroupDoubtAppend(members, item);
    Swap(Doubt(others, evidence), GroupDoubt(members), 1.0 - if members == [] then Weight(item) else Weight(item) * 0.25);
  }

  /** One more item of evidence multiplies the doubt by its own. */
  lemma {:induction false} DoubtAppend(evidence: seq<Evidence>, item: Evidence)
    ensures Doubt(Groups(evidence + [item]), evidence + [item])
         == Times(Doubt(Groups(evidence), evidence), 1.0 - Share(item, Groups(evidence)))
  {
    GroupsAppend(evidence, item);
    DoubtAppendWithin(Groups(evidence) + {item.group}, evidence, item);
    if item.group in Groups(evidence) {
      SomeMembers(evidence, item.group);
      assert Groups(evidence) + {item.group} == Groups(evidence);
    } else {
      NoMembers(evidence, item.group);
      DoubtEmptyGroup(Groups(evidence), evidence, item.group);
    }
  }

  lemma GroupDoubtAppend(items: seq<Evidence>, item: Evidence)
    ensures GroupDoubt(items + [item])
         == Times(GroupDoubt(items), 1.0 - if items == [] then Weight(item) else Weight(item) * 0.25)
  {
    if items == [] {
      assert ([item])[1..] == [];
      assert items + [item] == [item];
    } else {
      var tail := items[1..];
      assert (items + [item])[1..] == tail + [item];
      assert (tail + [item])[..|tail|] == tail;
      Swap(Quarters(tail), 1.0 - Weight(item) * 0.25, 1.0 - Weight(items[0]));
    }
  }

  // ---------------------------------------------------------------- order of the evidence

  lemma {:induction false} QuartersWithout(items: seq<Evidence>, i: nat)
    requires i < |items|
    ensures Quarters(items) == Times(Quarters(Without(items, i)), 1.0 - Weight(items[i]) * 0.25)
  {
    var n := |items| - 1;
    if i == n {
      assert Without(items, i) == items[..n];
    } else {
      var shorter := Without(items, i);
      assert shorter[..n - 1] == Without(items[..n], i) && shorter[n - 1] == items[n];
      QuartersWithout(items[..n], i);
      Swap(Quarters(Without(items[..n], i)), 1.0 - Weight(items[i]) * 0.25, 1.0 - Weight(items[n]) * 0.25);
    }
  }

  lemma {:induction false} QuartersPermutation(s: seq<Evidence>, t: seq<Evidence>)
    requires multiset(s) == multiset(t)
    ensures Quarters(s) == Quarters(t)
  {
    if s == [] {
      assert |t| == |multiset(t)| == 0;
    } else {
      var i := MatchLast(s, t);
      QuartersPermutation(s[..|s| - 1], Without(t, i));
      QuartersWithout(t, i);
    }
  }

  lemma TailMultiset(s: seq<Evidence>)
    requires s != []
    ensures multiset(s[1..]) == multiset(s) - multiset{s[0]}
  {
    assert s == [s[0]] + s[1..];
  }

  lemma GroupsPermutation(s: seq<Evidence>, t: seq<Evidence>)
    requires multiset(s) == multiset(t)
    ensures Groups(s) == Groups(t)
  {
    assert forall x :: x in s <==> x in multiset(s);
    assert forall x :: x in t <==> x in multiset(t);
  }

  lemma SameHeadSameDoubt(s: seq<Evidence>, t: seq<Evidence>)
    requires multiset(s) == multiset(t) && s != [] && t != [] && s[0] == t[0]
    ensures GroupDoubt(s) == GroupDoubt(t)
  {
    TailMultiset(s);
    TailMultiset(t);
    QuartersPermutation(s[1..], t[1..]);
  }

  /** Reordering the evidence changes nothing as long as every group keeps its first item. */
  lemma ReorderingKeepsCorroboration(evidence: seq<Evidence>, reordered: seq<Evidence>)
    requires multiset(evidence) == multiset(reordered)
    requires forall group <- Groups(evidence) ::
      |Members(evidence, group)| > 0 && |Members(reordered, group)| > 0
      ==> Members(evidence, group)[0] == Members(reordered, group)[0]
    ensures Corroboration(evidence) == Corroboration(reordered)
  {
    hide Groups, GroupDoubt, Doubt;
    GroupsPermutation(evidence, reordered);
    forall group | group in Groups(evidence)
      ensures GroupDoubt(Members(evidence, group)) == GroupDoubt(Members(reordered, group))
    {
      SelectPermutation(OfGroup(group), evidence, reordered);
      SomeMembers(evidence, group);
      SomeMembers(reordered, group);
      SameHeadSameDoubt(Members(evidence, group), Members(reordered, group));
    }
    DoubtMonotone(Groups(evidence), evidence, reordered);
    DoubtMonotone(Groups(evidence), reordered, evidence);
  }

  ghost predicate StrongestFirst(items: seq<Evidence>) {
    forall i :: 0 <= i < |items| ==> Weight(items[i]) <= Weight(items[0])
  }

  /** Of two orders of one group, the one led by a strongest item leaves least doubt. */
  lemma {:induction false} StrongestHeadIsBest(s: seq<Evidence>, best: seq<Evidence>)
    requires multiset(s) == multiset(best)
    requires StrongestFirst(best)
    ensures GroupDoubt(best) <= GroupDoubt(s)
  {
    if s == [] {
      assert |best| == |multiset(s)| == 0;
    } else {
      StrongestLeads(s, best);
      QuartersPermutation(s, best);
      QuartersByHead(s);
      QuartersByHead(best);
      hide Quarters, Weight, StrongestFirst;
      HeadExchange(Quarters(s[1..]), Quarters(best[1..]), Weight(s[0]), Weight(best[0]));
    }
  }

  lemma StrongestLeads(s: seq<Evidence>, best: seq<Evidence>)
    requires multiset(s) == multiset(best) && StrongestFirst(best) && s != []
    ensures best != [] && Weight(s[0]) <= Weight(best[0])
  {
    assert s[0] in multiset(best);
  }

  lemma QuartersByHead(items: seq<Evidence>)
    requires items != []
    ensures Quarters(items) == Times(Quarters(items[1..]), 1.0 - Weight(items[0]) * 0.25)
  {
    QuartersWithout(items, 0);
    assert Without(items, 0) == items[1..];
  }

  /** With the same product of quarters over all members, the stronger head has the smaller doubt. */
  lemma {:induction false} HeadExchange(weakTail: real, strongTail: real, weak: real, strong: real)
    requires 0.0 < weakTail && 0.0 < strongTail && 0.0 <= weak <= strong <= 1.0
    requires Times(weakTail, 1.0 - weak * 0.25) == Times(strongTail, 1.0 - strong * 0.25)
    ensures Times(strongTail, 1.0 - strong) <= Times(weakTail, 1.0 - weak)
  {
    if strongTail < weakTail {
      Fraction(weakTail - strongTail, 1.0 - weak * 0.25);
      Fraction(strongTail, strong - weak);
      assert false;
    }
    assert weakTail * (1.0 - weak) == 4.0 * (weakTail * (1.0 - weak * 0.25)) - 3.0 * weakTail;
    assert strongTail * (1.0 - strong) == 4.0 * (strongTail * (1.0 - strong * 0.25)) - 3.0 * strongTail;
  }

  /** Over all orders of the same evidence, putting each group's strongest item first corroborates most. */
  lemma StrongestFirstMaximises(evidence: seq<Evidence>, best: seq<Evidence>)
    requires multiset(evidence) == multiset(best)
    requires forall group <- Groups(evidence) :: StrongestFirst(Members(best, group))
    ensures Corroboration(evidence) <= Corroboration(best)
  {
    GroupsPermutation(evidence, best);
    forall group | group in Groups(evidence)
      ensures GroupDoubt(Members(best, group)) <= GroupDoubt(Members(evidence, group))
    {
      SelectPermutation(OfGroup(group), evidence, best);
      StrongestHeadIsBest(Members(evidence, group), Members(best, group));
    }
    DoubtMonotone(Groups(evidence), evidence, best);
  }

  // ---------------------------------------------------------------- more evidence, stronger evidence

  /** Evidence added at the end never lowers corroboration. */
  lemma AppendingNeverLowers(evidence: seq<Evidence>, item: Evidence)
    ensures Corroboration(evidence) <= Corroboration(evidence + [item])
  {
    DoubtAppend(evidence, item);
    Fraction(Doubt(Groups(evidence), evidence), 1.0 - Share(item, Groups(evidence)));
  }

  lemma {:induction false} QuartersStronger(s: seq<Evidence>, t: seq<Evidence>)
    requires |s| == |t|
    requires forall i :: 0 <= i < |s| ==> Weight(s[i]) <= Weight(t[i])
    ensures Quarters(t) <= Quarters(s)
  {
    if s != [] {
      var n := |s| - 1;
      QuartersStronger(s[..n], t[..n]);
      Monotone(Quarters(t[..n]), Quarters(s[..n]), 1.0 - Weight(t[n]) * 0.25, 1.0 - Weight(s[n]) * 0.25);
    }
  }

  lemma {:induction false} MembersStronger(s: seq<Evidence>, t: seq<Evidence>, group: string)
    requires |s| == |t|
    requires forall i :: 0 <= i < |s| ==> s[i].group == t[i].group && Weight(s[i]) <= Weight(t[i])
    ensures |Members(s, group)| == |Members(t, group)|
    ensures forall i :: 0 <= i < |Members(s, group)| ==> Weight(Members(s, group)[i]) <= Weight(Members(t, group)[i])
  {
    if s != [] {
      MembersStronger(s[..|s| - 1], t[..|t| - 1], group);
    }
  }

  /** Raising reliabilities, one by one, never lowers corroboration. */
  lemma RaisingReliabilityNeverLowers(evidence: seq<Evidence>, raised: seq<Evidence>)
    requires |evidence| == |raised|
    requires forall i :: 0 <= i < |evidence| ==>
      evidence[i].group == raised[i].group && evidence[i].reliability <= raised[i].reliability
    ensures Corroboration(evidence) <= Corroboration(raised)
  {
    assert Groups(evidence) == Groups(raised) by {
      forall g | g in Groups(evidence) ensures g in Groups(raised) {
        var i :| 0 <= i < |evidence| && evidence[i].group == g;
        assert raised[i] in raised;
      }
      forall g | g in Groups(raised) ensures g in Groups(evidence) {
        var i :| 0 <= i < |raised| && raised[i].group == g;
        assert evidence[i] in evidence;
      }
    }
    forall group | group in Groups(evidence)
      ensures GroupDoubt(Members(raised, group)) <= GroupDoubt(Members(evidence, group))
    {
      MembersStronger(evidence, raised, group);
      var s, t := Members(evidence, group), Members(raised, group);
      if s != [] {
        assert forall i :: 0 <= i < |s[1..]| ==> s[1..][i] == s[i + 1] && t[1..][i] == t[i + 1];
        QuartersStronger(s[1..], t[1..]);
        Monotone(Quarters(t[1..]), Quarters(s[1..]), 1.0 - Weight(t[0]), 1.0 - Weight(s[0]));
      }
    }
    DoubtMonotone(Groups(evidence), evidence, raised);
  }

  function InsertAt(evidence: seq<Evidence>, p: nat, item: Evidence): seq<Evidence>
    requires p <= |evidence|
  {
    evidence[..p] + [item] + evidence[p..]
  }

  /** A new head of weight `weak` costs more than it adds when it pushes a head of weight `strong` back to a quarter. */
  predicate TooWeakToLead(weak: real, strong: real) {
    strong * (3.0 + weak) > 4.0 * weak
  }

  /**
    * The one way more evidence can hurt: the new item takes the head of a group from a stronger
    * first item, while no other group is beyond doubt already.
    */
  ghost predicate InsertionHurts(evidence: seq<Evidence>, p: nat, item: Evidence)
    requires p <= |evidence|
  {
    && item.group !in Groups(evidence[..p])
    && Members(evidence[p..], item.group) != []
    && TooWeakToLead(Weight(item), Weight(Members(evidence[p..], item.group)[0]))
    && NoneBeyondDoubt(Groups(evidence) - {item.group}, evidence)
  }

  ghost predicate NoneBeyondDoubt(groups: set<string>, evidence: seq<Evidence>) {
    forall group <- groups :: Members(evidence, group) != [] ==> Weight(Members(evidence, group)[0]) < 1.0
  }

  lemma {:induction false} DoubtPositive(groups: set<string>, evidence: seq<Evidence>)
    ensures Doubt(groups, evidence) > 0.0 <==> NoneBeyondDoubt(groups, evidence)
  {
    if groups != {} {
      var group := Pick(groups);
      var rest, doubt := Doubt(groups - {group}, evidence), GroupDoubt(Members(evidence, group));
      DoubtPositive(groups - {group}, evidence);
      GroupDoubtPositive(Members(evidence, group));
      Fraction(rest, doubt);
      assert rest == 0.0 || doubt == 0.0 ==> Times(rest, doubt) == 0.0;
      assert groups == groups - {group} + {group};
    }
  }

  lemma GroupDoubtPositive(items: seq<Evidence>)
    ensures GroupDoubt(items) > 0.0 <==> items == [] || Weight(items[0]) < 1.0
  {
    if items != [] {
      Fraction(Quarters(items[1..]), 1.0 - Weight(items[0]));
      assert Weight(items[0]) == 1.0 ==> Times(Quarters(items[1..]), 0.0) == 0.0;
    }
  }

  lemma {:induction false} InsertBehindHead(before: seq<Evidence>, item: Evidence, after: seq<Evidence>)
    requires before != []
    ensures GroupDoubt(before + [item] + after) <= GroupDoubt(before + after)
  {
    hide Quarters, Times, Weight;
    var tail := before[1..] + after;
    var longer := before[1..] + [item] + after;
    assert (before + after)[1..] == tail;
    assert (before + [item] + after)[1..] == longer;
    assert Without(longer, |before| - 1) == tail;
    QuartersWithout(longer, |before| - 1);
    Fraction(Quarters(tail), 1.0 - Weight(item) * 0.25);
    Monotone(Quarters(longer), Quarters(tail), 1.0 - Weight(before[0]), 1.0 - Weight(before[0]));
  }

  lemma {:induction false} InsertAsHead(item: Evidence, after: seq<Evidence>)
    requires after != []
    ensures GroupDoubt(after) < GroupDoubt([item] + after) <==>
      TooWeakToLead(Weight(item), Weight(after[0]))
  {
    hide Quarters, Times, TooWeakToLead;
    var y, w := Weight(after[0]), Weight(item);
    assert ([item] + after)[1..] == after;
    QuartersByHead(after);
    Swap(Quarters(after[1..]), 1.0 - y * 0.25, 1.0 - w);
    ScaledOrder(Quarters(after[1..]), 1.0 - y, Times(1.0 - y * 0.25, 1.0 - w));
    HeadArithmetic(y, w);
  }

  lemma HeadArithmetic(y: real, w: real)
    ensures 1.0 - y < Times(1.0 - y * 0.25, 1.0 - w) <==> TooWeakToLead(w, y)
  {
    assert Times(1.0 - y * 0.25, 1.0 - w) - (1.0 - y) == 0.25 * (y * (3.0 + w) - 4.0 * w);
  }

  /** What inserting into one group, after `before` and ahead of `after`, does to that group's doubt. */
  lemma {:induction false} GroupInsertion(before: seq<Evidence>, item: Evidence, after: seq<Evidence>)
    ensures GroupDoubt(before + after) < GroupDoubt(before + [item] + after) <==>
      before == [] && after != [] && TooWeakToLead(Weight(item), Weight(after[0]))
  {
    if before != [] {
      InsertBehindHead(before, item, after);
    } else {
      assert before + after == after && before + [item] + after == [item] + after;
      if after != [] { InsertAsHead(item, after); }
    }
  }

  lemma ScaledOrder(q: real, a: real, b: real)
    requires q > 0.0
    ensures Times(q, a) < Times(q, b) <==> a < b
  {
    if a < b {
      assert Times(q, b) - Times(q, a) == q * (b - a);
    } else {
      assert Times(q, a) - Times(q, b) == q * (a - b);
    }
  }

  lemma MembersInsert(evidence: seq<Evidence>, p: nat, item: Evidence, group: string)
    requires p <= |evidence|
    ensures Members(evidence, group) == Members(evidence[..p], group) + Members(evidence[p..], group)
    ensures Members(InsertAt(evidence, p, item), group)
         == Members(evidence[..p], group) + (if item.group == group then [item] else []) + Members(evidence[p..], group)
  {
    assert evidence == evidence[..p] + evidence[p..];
    SelectAppend(OfGroup(group), evidence[..p], evidence[p..]);
    SelectAppend(OfGroup(group), evidence[..p] + [item], evidence[p..]);
    MembersAppend(evidence[..p], item, group);
  }

  lemma {:induction false} InsertionWithin(groups: set<string>, evidence: seq<Evidence>, p: nat, item: Evidence)
    requires p <= |evidence| && item.group in groups
    ensures Doubt(groups, evidence) < Doubt(groups, InsertAt(evidence, p, item)) <==>
      && Members(evidence[..p], item.group) == []
      && Members(evidence[p..], item.group) != []
      && TooWeakToLead(Weight(item), Weight(Members(evidence[p..], item.group)[0]))
      && Doubt(groups - {item.group}, evidence) > 0.0
  {
    var longer, group := InsertAt(evidence, p, item), item.group;
    var others := groups - {group};
    forall g | g in others ensures Members(longer, g) == Members(evidence, g) { MembersInsert(evidence, p, item, g); }
    DoubtMonotone(others, evidence, longer);
    DoubtMonotone(others, longer, evidence);
    DoubtSplit(groups, evidence, group);
    DoubtSplit(groups, longer, group);
    MembersInsert(evidence, p, item, group);
    GroupInsertion(Members(evidence[..p], group), item, Members(evidence[p..], group));
    ScaledOrderOrZero(Doubt(others, evidence), GroupDoubt(Members(evidence, group)), GroupDoubt(Members(longer, group)));
  }

  lemma GroupsInsert(evidence: seq<Evidence>, p: nat, item: Evidence)
    requires p <= |evidence|
    ensures Groups(InsertAt(evidence, p, item)) == Groups(evidence) + {item.group}
  {
    assert evidence == evidence[..p] + evidence[p..];
    GroupsPermutation(InsertAt(evidence, p, item), evidence + [item]);
    GroupsAppend(evidence, item);
  }

  /** Inserting evidence anywhere lowers corroboration exactly when `InsertionHurts`. */
  lemma {:induction false} InsertionLowersIff(evidence: seq<Evidence>, p: nat, item: Evidence)
    requires p <= |evidence|
    ensures Corroboration(InsertAt(evidence, p, item)) < Corroboration(evidence) <==> InsertionHurts(evidence, p, item)
  {
    var groups := Groups(evidence) + {item.group};
    assert groups - {item.group} == Groups(evidence) - {item.group};
    GroupsInsert(evidence, p, item);
    InsertionWithin(groups, evidence, p, item);
    DoubtPositive(groups - {item.group}, evidence);
    assert Doubt(groups, evidence) == Doubt(Groups(evidence), evidence) by {
      if item.group in Groups(evidence) {
        assert groups == Groups(evidence);
      } else {
        DoubtEmptyGroup(Groups(evidence), evidence, item.group);
      }
    }
    assert item.group in Groups(evidence[..p]) <==> Members(evidence[..p], item.group) != [] by {
      if item.group in Groups(evidence[..p]) {
        SomeMembers(evidence[..p], item.group);
      } else {
        NoMembers(evidence[..p], item.group);
      }
    }
  }

  lemma ScaledOrderOrZero(q: real, a: real, b: real)
    requires q >= 0.0
    ensures Times(q, a) < Times(q, b) <==> q > 0.0 && a < b
  {
    if q > 0.0 { ScaledOrder(q, a, b); }
  }

  // ---------------------------------------------------------------- the score

  /** `exp(-age / half_life)` for a dated claim, one half for an undated one. */
  function Recency(exp: real -> real, category: ClaimCategory, ageDays: Option<int>): real {
    match ageDays
    case None => 0.5
    case Some(days) =>
      var age := if days < 0 then 0 else days;
      exp(-(age as real / HalfLifeDays(category) as real))
  }

  lemma RecencyRange(exp: real -> real, category: ClaimCategory, ageDays: Option<int>)
    requires ExpLike(exp)
    ensures 0.0 < Recency(exp, category, ageDays) <= 1.0
    ensures ageDays.Some? && ageDays.value <= 0 ==> Recency(exp, category, ageDays) == 1.0
  {
    if ageDays.Some? {
      var age := if ageDays.value < 0 then 0 else ageDays.value;
      var ratio := age as real / HalfLifeDays(category) as real;
      assert ratio >= 0.0;
      assert exp(-ratio) <= exp(0.0);
    }
  }

  ghost predicate StrictlyRising(exp: real -> real) {
    forall x, y :: x < y ==> exp(x) < exp(y)
  }

  /** Dated evidence that grows older never looks more recent, and strictly less recent once its date has passed. */
  lemma RecencyFalls(exp: real -> real, category: ClaimCategory, days: int, older: int)
    requires ExpLike(exp) && days <= older
    ensures Recency(exp, category, Some(older)) <= Recency(exp, category, Some(days))
    ensures StrictlyRising(exp) && days < older && 0 < older ==>
      Recency(exp, category, Some(older)) < Recency(exp, category, Some(days))
    ensures Recency(exp, category, Some(HalfLifeDays(category))) == exp(-1.0)
  {
    var x, y := if days < 0 then 0 else days, if older < 0 then 0 else older;
    var h := HalfLifeDays(category) as real;
    QuotientOrder(x as real, y as real, h);
    assert -(y as real / h) <= -(x as real / h);
    assert h / h == 1.0;
  }

  lemma QuotientOrder(x: real, y: real, h: real)
    requires h > 0.0 && x <= y
    ensures x / h <= y / h
    ensures x < y ==> x / h < y / h
  {
  }

  /** Of one age, traction is the least recent and funding and legal matters the most. */
  lemma TractionFadesFirst(exp: real -> real, category: ClaimCategory, days: int)
    requires ExpLike(exp)
    ensures Recency(exp, Traction, Some(days)) <= Recency(exp, category, Some(days)) <= Recency(exp, Funding, Some(days))
    ensures Recency(exp, Legal, Some(days)) == Recency(exp, Funding, Some(days))
  {
    var age := (if days < 0 then 0 else days) as real;
    LongerLife(exp, age, HalfLifeDays(Traction) as real, HalfLifeDays(category) as real);
    LongerLife(exp, age, HalfLifeDays(category) as real, HalfLifeDays(Funding) as real);
  }

  lemma LongerLife(exp: real -> real, age: real, short: real, long: real)
    requires ExpLike(exp) && age >= 0.0 && 0.0 < short <= long
    ensures exp(-(age / short)) <= exp(-(age / long))
  {
    var a, b := age / short, age / long;
    assert a * short == age && b * long == age;
    if b > a {
      PositiveProduct(b - a, long);
      Monotone(a, a, short, long);
      assert false;
    }
    assert -a <= -b;
  }

  function Multiplier(contradicted: bool, verified: bool): real {
    (if contradicted then 0.45 else 1.0) * (if verified then 1.15 else 1.0)
  }

  /** The score before it is clamped and rounded. */
  function RawScore(tier: SourceTier, corroboration: real, recency: real, extraction: real,
                    contradicted: bool, verified: bool): real
  {
    Times(Times(Times(Times(TierBase(tier), 0.35 + 0.65 * corroboration), 0.6 + 0.4 * recency),
                Clamp(extraction, 0.0, 1.0)),
          Multiplier(contradicted, verified))
  }

  function Settle(raw: real): real {
    Round3(Clamp(raw, 0.02, 0.99))
  }

  function StatusOf(score: real, contradicted: bool): ClaimStatus {
    if contradicted then Contradicted
    else if score >= 0.80 then Verified
    else if score >= 0.55 then Corroborated
    else if score >= 0.30 then Claimed
    else Unverifiable
  }

  /** The trust score of a claim, on the order-free reading of its evidence. */
  ghost function TrustScore(exp: real -> real, tier: SourceTier, category: ClaimCategory, evidence: seq<Evidence>,
                            ageDays: Option<int>, extraction: real, contradicted: bool, verified: bool): real
  {
    Settle(RawScore(tier, Corroboration(evidence), Recency(exp, category, ageDays), extraction, contradicted, verified))
  }

  lemma CorroborateStep(evidence: seq<Evidence>, i: nat)
    requires i < |evidence|
    ensures Groups(evidence[..i + 1]) == Groups(evidence[..i]) + {evidence[i].group}
    ensures Doubt(Groups(evidence[..i + 1]), evidence[..i + 1])
         == Times(Doubt(Groups(evidence[..i]), evidence[..i]), 1.0 - Share(evidence[i], Groups(evidence[..i])))
  {
    assert evidence[..i + 1] == evidence[..i] + [evidence[i]];
    GroupsAppend(evidence[..i], evidence[i]);
    DoubtAppend(evidence[..i], evidence[i]);
  }

  /** The corroboration loop computes the product over groups, whatever order the groups are met in. */
  method Corroborate(evidence: seq<Evidence>) returns (corroboration: real, groups: set<string>)
    ensures corroboration == Corroboration(evidence)
    ensures groups == Groups(evidence)
  {
    groups := {};
    var product := 1.0;
    assert evidence[..0] == [] && Groups([]) == {} && Doubt({}, []) == 1.0;
    hide Groups, Doubt, Times;
    for i := 0 to |evidence|
      invariant groups == Groups(evidence[..i])
      invariant product == Doubt(Groups(evidence[..i]), evidence[..i])
    {
      var item := evidence[i];
      var independence := if item.group !in groups then 1.0 else 0.25;
      CorroborateStep(evidence, i);
      product := Times(product, 1.0 - Clamp(item.reliability, 0.0, 1.0) * independence);
      groups := groups + {item.group};
    }
    assert evidence[..|evidence|] == evidence;
    corroboration := 1.0 - product;
  }

  /** The whole scoring function meets its order-free reading. */
  method ComputeTrust(exp: real -> real, tier: SourceTier, category: ClaimCategory, evidence: seq<Evidence>,
                      ageDays: Option<int>, extractionConfidence: real,
                      contradicted: bool, independentlyVerified: bool)
    returns (result: TrustResult)
    ensures result.score
         == TrustScore(exp, tier, category, evidence, ageDays, extractionConfidence, contradicted, independentlyVerified)
    ensures result.status == StatusOf(result.score, contradicted)
    ensures result.corroboration == Round4(Corroboration(evidence))
    ensures result.independentSources == |Groups(evidence)|
    ensures result.recency == Round4(Recency(exp, category, ageDays))
  {
    var corroboration, groups := Corroborate(evidence);
    var recency := Recency(exp, category, ageDays);
    var multiplier := Multiplier(contradicted, independentlyVerified);
    var score := Times(Times(TierBase(tier), 0.35 + 0.65 * corroboration), 0.6 + 0.4 * recency);
    score := Times(score, Clamp(extractionConfidence, 0.0, 1.0));
    score := Times(score, multiplier);
    score := Round3(Clamp(score, 0.02, 0.99));
    var status := StatusOf(score, contradicted);
    result := TrustResult(score, status, Round4(corroboration), |groups|, Round4(recency));
  }

  lemma RawMonotone(tier: SourceTier, c1: real, c2: real, r1: real, r2: real, x1: real, x2: real,
                    contradicted: bool, verified: bool)
    requires 0.0 <= c1 <= c2 && 0.0 <= r1 <= r2 && x1 <= x2
    ensures 0.0 <= RawScore(tier, c1, r1, x1, contradicted, verified)
    ensures RawScore(tier, c1, r1, x1, contradicted, verified) <= RawScore(tier, c2, r2, x2, contradicted, verified)
  {
    var base := TierBase(tier);
    var a1, a2 := Times(base, 0.35 + 0.65 * c1), Times(base, 0.35 + 0.65 * c2);
    var b1, b2 := Times(a1, 0.6 + 0.4 * r1), Times(a2, 0.6 + 0.4 * r2);
    var e1, e2 := Clamp(x1, 0.0, 1.0), Clamp(x2, 0.0, 1.0);
    var m := Multiplier(contradicted, verified);
    Monotone(0.0, base, 0.0, 0.35 + 0.65 * c1);
    Monotone(base, base, 0.35 + 0.65 * c1, 0.35 + 0.65 * c2);
    Monotone(0.0, a1, 0.0, 0.6 + 0.4 * r1);
    Monotone(a1, a2, 0.6 + 0.4 * r1, 0.6 + 0.4 * r2);
    Monotone(0.0, b1, 0.0, e1);
    Monotone(b1, b2, e1, e2);
    Monotone(0.0, Times(b1, e1), 0.0, m);
    Monotone(Times(b1, e1), Times(b2, e2), m, m);
  }

  lemma SettleMonotone(x: real, y: real)
    requires x <= y
    ensures Settle(x) <= Settle(y)
  {
    Round3Monotone(Clamp(x, 0.02, 0.99), Clamp(y, 0.02, 0.99));
  }

  /**
    * Evidence appended, reliabilities raised, or each group's strongest item put first:
    * whatever does not lower corroboration does not lower the trust score.
    */
  lemma TrustMonotone(exp: real -> real, tier: SourceTier, category: ClaimCategory,
                      evidence: seq<Evidence>, better: seq<Evidence>,
                      ageDays: Option<int>, extraction: real, contradicted: bool, verified: bool)
    requires ExpLike(exp)
    requires Corroboration(evidence) <= Corroboration(better)
    ensures TrustScore(exp, tier, category, evidence, ageDays, extraction, contradicted, verified)
         <= TrustScore(exp, tier, category, better, ageDays, extraction, contradicted, verified)
  {
    RecencyRange(exp, category, ageDays);
    var r := Recency(exp, category, ageDays);
    RawMonotone(tier, Corroboration(evidence), Corroboration(better), r, r, extraction, extraction, contradicted, verified);
    SettleMonotone(RawScore(tier, Corroboration(evidence), r, extraction, contradicted, verified),
      RawScore(tier, Corroboration(better), r, extraction, contradicted, verified));
  }

  /** A dated claim that grows older, and is otherwise as it was, never gains trust. */
  lemma AgeingNeverRaises(exp: real -> real, tier: SourceTier, category: ClaimCategory, evidence: seq<Evidence>,
                          days: int, older: int, extraction: real, contradicted: bool, verified: bool)
    requires ExpLike(exp) && days <= older
    ensures TrustScore(exp, tier, category, evidence, Some(older), extraction, contradicted, verified)
         <= TrustScore(exp, tier, category, evidence, Some(days), extraction, contradicted, verified)
  {
    RecencyFalls(exp, category, days, older);
    RecencyRange(exp, category, Some(older));
    var c, r, s := Corroboration(evidence), Recency(exp, category, Some(older)), Recency(exp, category, Some(days));
    RawMonotone(tier, c, c, r, s, extraction, extraction, contradicted, verified);
    SettleMonotone(RawScore(tier, c, r, extraction, contradicted, verified), RawScore(tier, c, s, extraction, contradicted, verified));
  }

  /** The most a tier can score: its base, with the multipliers, and never above 0.99. */
  function Ceiling(tier: SourceTier, contradicted: bool, verified: bool): real {
    Settle(Times(TierBase(tier), Multiplier(contradicted, verified)))
  }

  lemma CeilingTable(tier: SourceTier, contradicted: bool, verified: bool)
    ensures tier.SelfReported? ==> Ceiling(tier, contradicted, verified) <= 0.46
    ensures tier.Inferred? ==> Ceiling(tier, contradicted, verified) < 0.30
    ensures tier.Aggregator? ==> Ceiling(tier, contradicted, verified) < 0.80
    ensures contradicted ==> Ceiling(tier, contradicted, verified) < 0.48
    ensures !contradicted && (tier.Primary? || tier.VerifiedThirdParty?) ==> Ceiling(tier, contradicted, verified) >= 0.80
  {
    Round3Exact(460);
  }

  /** The ceilings in thousandths: what the best evidence makes of each tier, plain, independently verified, contradicted, or both. */
  function Ceilings(tier: SourceTier): (nat, nat, nat, nat) {
    match tier
    case Primary => (920, 990, 414, 476)
    case VerifiedThirdParty => (850, 978, 382, 440)
    case Aggregator => (650, 748, 292, 336)
    case SelfReported => (400, 460, 180, 207)
    case Inferred => (250, 288, 112, 129)
  }

  lemma CeilingsAre(tier: SourceTier)
    ensures Ceiling(tier, false, false) == Ceilings(tier).0 as real / 1000.0
    ensures Ceiling(tier, false, true) == Ceilings(tier).1 as real / 1000.0
    ensures Ceiling(tier, true, false) == Ceilings(tier).2 as real / 1000.0
    ensures Ceiling(tier, true, true) == Ceilings(tier).3 as real / 1000.0
  {
    var base := TierBase(tier);
    hide Round3;
    Round3Is(base, Ceilings(tier).0);
    Round3Is(Min(0.99, base * 1.15), Ceilings(tier).1);
    Round3Is(base * 0.45, Ceilings(tier).2);
    Round3Is(base * 0.5175, Ceilings(tier).3);
  }

  /** Fresh, fully corroborated and cleanly extracted: the ceiling is reached. */
  lemma CeilingReached(tier: SourceTier, contradicted: bool, verified: bool)
    ensures Settle(RawScore(tier, 1.0, 1.0, 1.0, contradicted, verified)) == Ceiling(tier, contradicted, verified)
  {
    Unit(TierBase(tier));
  }

  /**
    * No list of evidence, age or extraction lifts a claim above the ceiling of its tier. Hence a
    * self-reported claim never gets past CLAIMED, an aggregator's never past CORROBORATED, an inferred one
    * stays UNVERIFIABLE, and a contradicted claim is always CONTRADICTED with a score below 0.48.
    */
  lemma TrustCeiling(exp: real -> real, tier: SourceTier, category: ClaimCategory, evidence: seq<Evidence>,
                     ageDays: Option<int>, extraction: real, contradicted: bool, verified: bool)
    requires ExpLike(exp)
    ensures
      var score := TrustScore(exp, tier, category, evidence, ageDays, extraction, contradicted, verified);
      var status := StatusOf(score, contradicted);
      && 0.02 <= score <= Ceiling(tier, contradicted, verified)
      && (contradicted ==> status == Contradicted && score < 0.48)
      && (tier == SelfReported ==> score <= 0.46 && status in {Claimed, Contradicted, Unverifiable})
      && (tier == Inferred ==> status in {Contradicted, Unverifiable})
      && (tier == Aggregator ==> status != Verified)
  {
    RecencyRange(exp, category, ageDays);
    var c, r := Corroboration(evidence), Recency(exp, category, ageDays);
    RawMonotone(tier, c, 1.0, r, 1.0, extraction, if extraction < 1.0 then 1.0 else extraction, contradicted, verified);
    SettleMonotone(RawScore(tier, c, r, extraction, contradicted, verified),
      RawScore(tier, 1.0, 1.0, 1.0, contradicted, verified));
    CeilingReached(tier, contradicted, verified);
    CeilingTable(tier, contradicted, verified);
    SettleMonotone(0.02, Clamp(RawScore(tier, c, r, extraction, contradicted, verified), 0.02, 0.99));
    Round3Exact(20);
  }

  lemma SoleItem(item: Evidence)
    ensures Corroboration([item]) == Weight(item)
  {
    DoubtAppend([], item);
    assert [] + [item] == [item];
    assert Groups([]) == {};
  }

  /** VERIFIED is within reach of a primary source and of a verified third party, and of no other tier. */
  lemma VerifiedReachable(exp: real -> real, tier: SourceTier)
    requires ExpLike(exp)
    ensures (exists category, evidence, ageDays, extraction, verified ::
        StatusOf(TrustScore(exp, tier, category, evidence, ageDays, extraction, false, verified), false) == Verified)
      <==> tier == Primary || tier == VerifiedThirdParty
  {
    var item := Evidence(1.0, "registry");
    SoleItem(item);
    RecencyRange(exp, Other, Some(0));
    CeilingReached(tier, false, false);
    CeilingTable(tier, false, false);
    assert TrustScore(exp, tier, Other, [item], Some(0), 1.0, false, false) == Ceiling(tier, false, false);
    forall category, evidence, ageDays, extraction, verified
      | StatusOf(TrustScore(exp, tier, category, evidence, ageDays, extraction, false, verified), false) == Verified
      ensures tier == Primary || tier == VerifiedThirdParty
    {
      TrustCeiling(exp, tier, category, evidence, ageDays, extraction, false, verified);
    }
  }

  /** Statuses of an uncontradicted claim, from the weakest up. */
  function Standing(status: ClaimStatus): nat {
    match status
    case Verified => 3
    case Corroborated => 2
    case Claimed => 1
    case _ => 0
  }

  /** The best standing a tier can reach, by whether the claim is dated and whether it is independently verified. */
  function BestStanding(tier: SourceTier, dated: bool, verified: bool): ClaimStatus {
    match tier
    case Primary => if dated || verified then Verified else Corroborated
    case VerifiedThirdParty => if dated then Verified else Corroborated
    case Aggregator => if dated || verified then Corroborated else Claimed
    case SelfReported => Claimed
    case Inferred => Unverifiable
  }

  lemma StandingMonotone(low: real, high: real)
    requires low <= high
    ensures Standing(StatusOf(low, false)) <= Standing(StatusOf(high, false))
  {
  }

  lemma BestIs(tier: SourceTier, dated: bool, verified: bool)
    ensures StatusOf(Settle(RawScore(tier, 1.0, if dated then 1.0 else 0.5, 1.0, false, verified)), false)
         == BestStanding(tier, dated, verified)
  {
    var base, m := TierBase(tier), Multiplier(false, verified);
    assert m == if verified then 1.15 else 1.0;
    var r := if dated then 1.0 else 0.8;
    assert RawScore(tier, 1.0, if dated then 1.0 else 0.5, 1.0, false, verified) == Times(Times(base, r), m);
    hide RawScore, Multiplier;
  }

  /**
    * The best standing of each tier: no evidence, age or extraction gets an uncontradicted claim above it, and some
    * evidence gets it there. An undated claim of an aggregator needs independent verification to be CORROBORATED,
    * one of a verified third party is never VERIFIED.
    */
  lemma BestStandingIsBest(exp: real -> real, tier: SourceTier, category: ClaimCategory, evidence: seq<Evidence>,
                           ageDays: Option<int>, extraction: real, verified: bool)
    requires ExpLike(exp)
    ensures
      var best := BestStanding(tier, ageDays.Some?, verified);
      && Standing(StatusOf(TrustScore(exp, tier, category, evidence, ageDays, extraction, false, verified), false)) <= Standing(best)
      && StatusOf(TrustScore(exp, tier, category, [Evidence(1.0, "registry")], if ageDays.Some? then Some(0) else None, 1.0,
                             false, verified), false) == best
  {
    RecencyRange(exp, category, ageDays);
    RecencyRange(exp, category, Some(0));
    SoleItem(Evidence(1.0, "registry"));
    BestIs(tier, ageDays.Some?, verified);
    var c, r, top := Corroboration(evidence), Recency(exp, category, ageDays), if ageDays.Some? then 1.0 else 0.5;
    RawMonotone(tier, c, 1.0, r, top, extraction, if extraction < 1.0 then 1.0 else extraction, false, verified);
    hide Settle, StatusOf, Multiplier;
    var low, high := RawScore(tier, c, r, extraction, false, verified), RawScore(tier, 1.0, top, 1.0, false, verified);
    assert high == RawScore(tier, 1.0, top, if extraction < 1.0 then 1.0 else extraction, false, verified);
    SettleMonotone(low, high);
    StandingMonotone(Settle(low), Settle(high));
  }

  /** An undated claim keeps four fifths of its tier, so only an independently verified one can be VERIFIED. */
  lemma UndatedNeedsVerification(exp: real -> real, tier: SourceTier, category: ClaimCategory, evidence: seq<Evidence>,
                                 extraction: real)
    requires ExpLike(exp)
    ensures StatusOf(TrustScore(exp, tier, category, evidence, None, extraction, false, false), false) != Verified
    ensures StatusOf(TrustScore(exp, Primary, category, [Evidence(1.0, "registry")], None, 1.0, false, true), false) == Verified
  {
    var c := Corroboration(evidence);
    RawMonotone(tier, c, 1.0, 0.5, 0.5, extraction, if extraction < 1.0 then 1.0 else extraction, false, false);
    var top := RawScore(tier, 1.0, 0.5, 1.0, false, false);
    assert top <= 0.736 by { Unit(TierBase(tier)); }
    SettleMonotone(RawScore(tier, c, 0.5, extraction, false, false), 0.736);
    Round3Exact(736);
    SoleItem(Evidence(1.0, "registry"));
    assert RawScore(Primary, 1.0, 0.5, 1.0, false, true) == 0.8464;
    Round3Exact(800);
    Round3Monotone(0.8, 0.8464);
  }

  /**
    * What the pipeline gives every claim it extracts from a deck (source tier self-reported, reliability
    * 0.40, one item of evidence, extraction confidence at most 0.82): a score of at most 0.2, so the status
    * is UNVERIFIABLE however fresh the deck is.
    */
  lemma DeckClaimsStayUnverifiable(exp: real -> real, category: ClaimCategory, document: string,
                                   ageDays: Option<int>, extraction: real)
    requires ExpLike(exp)
    requires extraction <= 0.82
    ensures
      var score := TrustScore(exp, SelfReported, category, [Evidence(0.4, document)], ageDays, extraction, false, false);
      score <= 0.2 && StatusOf(score, false) == Unverifiable
  {
    SoleItem(Evidence(0.4, document));
    RecencyRange(exp, category, ageDays);
    var r := Recency(exp, category, ageDays);
    RawMonotone(SelfReported, 0.4, 0.4, r, 1.0, extraction, 0.82, false, false);
    assert RawScore(SelfReported, 0.4, 1.0, 0.82, false, false) == 0.20008;
    SettleMonotone(RawScore(SelfReported, 0.4, r, extraction, false, false), 0.20008);
    assert RoundHalfEven(200.08) == 200;
  }

  /** More evidence can lower trust: a weak item inserted ahead of a strong one of its group. */
  lemma InsertionCanHurt()
    ensures
      var strong, weak := Evidence(0.9, "registry"), Evidence(0.1, "registry");
      Corroboration(InsertAt([strong], 0, weak)) < Corroboration([strong])
  {
    var strong, weak := Evidence(0.9, "registry"), Evidence(0.1, "registry");
    assert Groups([]) == {} && Groups([strong]) == {"registry"};
    assert [strong][..0] == [] && [strong][0..] == [strong];
    assert Members([strong], "registry") == [strong] by { SelectOne(OfGroup("registry"), strong); }
    assert Weight(weak) == 0.1 && Weight(strong) == 0.9;
    assert TooWeakToLead(0.1, 0.9);
    hide Groups, Members, Corroboration, InsertAt, Weight, TooWeakToLead;
    assert NoneBeyondDoubt({}, [strong]);
    assert {"registry"} - {"registry"} == {};
    InsertionLowersIff([strong], 0, weak);
  }
}
