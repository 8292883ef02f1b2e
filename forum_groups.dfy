/**
 * The forum list page (src/routes/_auth/index.tsx) groups the cached forums by category with a
 * `reduce` that fills a record in place, then lists the record's entries. Object keys that are
 * not array indices keep insertion order; category names that are not array indices therefore
 * come in order of each category's first appearance.
 *
 * The record is a plain object, so it inherits the members of `Object.prototype`. For a category
 * that names one of them, `acc[category] ??= []` finds the inherited member, which is never
 * nullish, and assigns nothing; the following `.push` is then not a function and the page
 * throws a TypeError.
 */
module ForumGroups {
  import opened Wrappers
  import opened Entities
  import NewForumPage

  /** The members every plain object inherits from `Object.prototype`, including the legacy accessors. */
  const ObjectPrototypeMembers: set<string> :=
    {"constructor", "hasOwnProperty", "isPrototypeOf", "propertyIsEnumerable", "toLocaleString", "toString",
     "valueOf", "__proto__", "__defineGetter__", "__defineSetter__", "__lookupGetter__", "__lookupSetter__"}

  /** The `TypeError` thrown by `acc[category].push` when `acc[category]` is an inherited member. */
  datatype GroupingError = PushNotAFunction(category: string)

  /** Some forum's category names an inherited member. */
  predicate HitsPrototype(forums: seq<Forum>) {
    exists i :: 0 <= i < |forums| && forums[i].category in ObjectPrototypeMembers
  }

  /** The categories of `forums`, each once, in order of first appearance. */
  function Categories(forums: seq<Forum>): seq<string> {
    if forums == [] then []
    else
      var earlier := Categories(forums[..|forums| - 1]);
      var c := forums[|forums| - 1].category;
      if c in earlier then earlier else earlier + [c]
  }

  /** The forums of category `c`, in input order. */
  function InCategory(forums: seq<Forum>, c: string): seq<Forum> {
    if forums == [] then []
    else
      var last := forums[|forums| - 1];
      InCategory(forums[..|forums| - 1], c) + (if last.category == c then [last] else [])
  }

  /** The groups in listing order: each category with its forums. */
  function GroupsOf(forums: seq<Forum>, categories: seq<string>): seq<(string, seq<Forum>)> {
    seq(|categories|, i requires 0 <= i < |categories| => (categories[i], InCategory(forums, categories[i])))
  }

  /** `Object.entries(groupedForums)` as the page renders it. */
  function Grouped(forums: seq<Forum>): seq<(string, seq<Forum>)> {
    GroupsOf(forums, Categories(forums))
  }

  /** All forums of a list of groups, group after group. */
  function AllForums(groups: seq<(string, seq<Forum>)>): seq<Forum> {
    if groups == [] then [] else AllForums(groups[..|groups| - 1]) + groups[|groups| - 1].1
  }

  /**
   * The `reduce`: `acc[forum.category] ??= []` then `acc[forum.category].push(forum)`, then
   * `Object.entries(acc)`. It throws at the first forum whose category is an inherited member.
   */
  method GroupByCategory(forums: seq<Forum>) returns (groups: Result<seq<(string, seq<Forum>)>, GroupingError>)
    ensures groups.Ok? <==> !HitsPrototype(forums)
    ensures groups.Ok? ==> groups.value == Grouped(forums)
    ensures groups.Err? ==> exists i :: 0 <= i < |forums| && groups.error == PushNotAFunction(forums[i].category)
                                        && forums[i].category in ObjectPrototypeMembers
                                        && !HitsPrototype(forums[..i])
  {
    var order: seq<string> := [];             // the record's key insertion order
    var acc: map<string, seq<Forum>> := map[];
    var i := 0;
    while i < |forums|
      invariant 0 <= i <= |forums|
      invariant !HitsPrototype(forums[..i])
      invariant order == Categories(forums[..i])
      invariant forall c :: c in acc <==> c in order
      invariant forall c :: c in acc ==> acc[c] == InCategory(forums[..i], c)
    {
      var forum := forums[i];
      assert forums[..i + 1][..i] == forums[..i];
      if forum.category in ObjectPrototypeMembers {
        assert forums[i].category in ObjectPrototypeMembers;
        return Err(PushNotAFunction(forum.category));
      }
      ghost var seen := forums[..i + 1];
      assert !HitsPrototype(seen) by {
        forall j | 0 <= j < |seen| ensures seen[j].category !in ObjectPrototypeMembers {
          if j < i {
            assert seen[j] == forums[..i][j];
          }
        }
      }
      if forum.category !in acc {
        NotListedIsEmpty(forums[..i], forum.category);
        acc := acc[forum.category := []];
        order := order + [forum.category];
      }
      acc := acc[forum.category := acc[forum.category] + [forum]];
      i := i + 1;
    }
    assert forums[..i] == forums;
    groups := Ok(seq(|order|, k requires 0 <= k < |order| => (order[k], acc[order[k]])));
  }

  /** The three categories a forum can be created with never name an inherited member, so such forums always group. */
  lemma CreatableCategoriesGroup(forums: seq<Forum>)
    requires forall i :: 0 <= i < |forums| ==> forums[i].category in NewForumPage.AllowedCategories
    ensures !HitsPrototype(forums)
  {
    assert NewForumPage.AllowedCategories !! ObjectPrototypeMembers;
  }

  lemma {:induction false} NotListedIsEmpty(forums: seq<Forum>, c: string)
    requires c !in Categories(forums)
    ensures InCategory(forums, c) == []
  {
    if forums != [] {
      NotListedIsEmpty(forums[..|forums| - 1], c);
    }
  }

  /** A category is listed exactly when some forum has it, and each category is listed once. */
  lemma {:induction false} CategoriesAreTheCategories(forums: seq<Forum>)
    ensures forall c :: c in Categories(forums) <==> exists i :: 0 <= i < |forums| && forums[i].category == c
    ensures Distinct(Categories(forums))
  {
    if forums != [] {
      var prefix := forums[..|forums| - 1];
      CategoriesAreTheCategories(prefix);
      forall c | c in Categories(forums) ensures exists i :: 0 <= i < |forums| && forums[i].category == c {
        if c in Categories(prefix) {
          var i :| 0 <= i < |prefix| && prefix[i].category == c;
          assert forums[i].category == c;
        } else {
          assert forums[|forums| - 1].category == c;
        }
      }
      forall c | exists i :: 0 <= i < |forums| && forums[i].category == c ensures c in Categories(forums) {
        var i :| 0 <= i < |forums| && forums[i].category == c;
        if i < |forums| - 1 {
          assert prefix[i].category == c;
        }
      }
    }
  }

  /**
   * Groups are listed in order of each category's first appearance: when category `a` is listed
   * before category `b`, a forum of `a` comes before every forum of `b`.
   */
  lemma {:induction false} CategoriesInFirstAppearanceOrder(forums: seq<Forum>, a: nat, b: nat)
    requires a < b < |Categories(forums)|
    ensures exists j :: 0 <= j < |forums| && forums[j].category == Categories(forums)[a]
                        && forall i :: 0 <= i <= j ==> forums[i].category != Categories(forums)[b]
  {
    var prefix := forums[..|forums| - 1];
    var cats := Categories(forums);
    if b < |Categories(prefix)| {
      CategoriesInFirstAppearanceOrder(prefix, a, b);
      var j :| 0 <= j < |prefix| && prefix[j].category == Categories(prefix)[a]
               && forall i :: 0 <= i <= j ==> prefix[i].category != Categories(prefix)[b];
      assert forums[j] == prefix[j];
      forall i | 0 <= i <= j ensures forums[i].category != cats[b] {
        assert forums[i] == prefix[i];
      }
    } else {
      // `b` is the last forum's category, new to the prefix; `a` was already listed there.
      var earlier := Categories(prefix);
      var last := forums[|forums| - 1].category;
      assert last !in earlier && cats == earlier + [last];
      assert cats[a] == earlier[a] && cats[b] == last;
      CategoriesAreTheCategories(prefix);
      assert earlier[a] in earlier;
      var j :| 0 <= j < |prefix| && prefix[j].category == earlier[a];
      assert forums[j] == prefix[j];
      forall i | 0 <= i <= j ensures forums[i].category != last {
        assert forums[i] == prefix[i];
        assert prefix[i].category in earlier;
      }
    }
  }

  /** No group is empty: a category is listed only once one of its forums has been seen. */
  lemma {:induction false} NoEmptyGroup(forums: seq<Forum>, c: string)
    requires c in Categories(forums)
    ensures InCategory(forums, c) != []
  {
    var prefix := forums[..|forums| - 1];
    if c in Categories(prefix) {
      NoEmptyGroup(prefix, c);
    }
  }

  /** The indices of the forums of category `c`, ascending. */
  function Positions(forums: seq<Forum>, c: string): seq<nat> {
    if forums == [] then []
    else Positions(forums[..|forums| - 1], c) + (if forums[|forums| - 1].category == c then [|forums| - 1] else [])
  }

  /**
   * A group is the input's forums of that category, in input order: its k-th forum is the input's
   * forum at the k-th index of that category, the indices ascend, and no index of that category is missed.
   */
  lemma {:induction false} GroupKeepsInputOrder(forums: seq<Forum>, c: string)
    ensures var p := Positions(forums, c);
            && |p| == |InCategory(forums, c)|
            && (forall k :: 0 <= k < |p| ==> p[k] < |forums| && InCategory(forums, c)[k] == forums[p[k]])
            && (forall k :: 0 <= k < |p| ==> p[k] < |forums| && forums[p[k]].category == c)
            && (forall k1, k2 :: 0 <= k1 < k2 < |p| ==> p[k1] < p[k2])
            && (forall i :: 0 <= i < |forums| && forums[i].category == c ==> i in p)
  {
    if forums != [] {
      var prefix := forums[..|forums| - 1];
      GroupKeepsInputOrder(prefix, c);
      var p := Positions(forums, c);
      forall i | 0 <= i < |forums| && forums[i].category == c ensures i in p {
        if i < |forums| - 1 {
          assert prefix[i].category == c;
        }
      }
    }
  }

  /** Every forum sits in the group of its own category. */
  lemma EveryForumInItsGroup(forums: seq<Forum>, i: nat)
    requires i < |forums|
    ensures forums[i] in InCategory(forums, forums[i].category)
  {
    GroupKeepsInputOrder(forums, forums[i].category);
    var p := Positions(forums, forums[i].category);
    var k :| 0 <= k < |p| && p[k] == i;
    assert InCategory(forums, forums[i].category)[k] == forums[i];
  }

  lemma AllForumsAppend(groups: seq<(string, seq<Forum>)>, g: (string, seq<Forum>))
    ensures AllForums(groups + [g]) == AllForums(groups) + g.1
  {
    assert (groups + [g])[..|groups|] == groups;
  }

  lemma GroupsOfAppend(forums: seq<Forum>, categories: seq<string>, c: string)
    ensures GroupsOf(forums, categories + [c]) == GroupsOf(forums, categories) + [(c, InCategory(forums, c))]
  {
  }

  lemma InCategoryAppend(forums: seq<Forum>, f: Forum, c: string)
    ensures InCategory(forums + [f], c) == InCategory(forums, c) + (if f.category == c then [f] else [])
  {
    assert (forums + [f])[..|forums|] == forums;
  }

  /** The forums of the groups of `categories + [c]`: those of `categories`, then those of `c`. */
  lemma AllGroupsAppend(forums: seq<Forum>, categories: seq<string>, c: string)
    ensures AllForums(GroupsOf(forums, categories + [c])) == AllForums(GroupsOf(forums, categories)) + InCategory(forums, c)
  {
    GroupsOfAppend(forums, categories, c);
    AllForumsAppend(GroupsOf(forums, categories), (c, InCategory(forums, c)));
  }

  /** No category is listed twice. */
  predicate Distinct(categories: seq<string>) {
    forall i, j :: 0 <= i < j < |categories| ==> categories[i] != categories[j]
  }

  lemma DistinctSplit(categories: seq<string>)
    requires Distinct(categories) && categories != []
    ensures Distinct(categories[..|categories| - 1])
    ensures categories[|categories| - 1] !in categories[..|categories| - 1]
  {
  }

  /** Adding forum `f` to the input adds `f` to the groups of a duplicate-free category list exactly when its category is listed. */
  lemma {:induction false} GroupsGrow(forums: seq<Forum>, f: Forum, categories: seq<string>)
    requires Distinct(categories)
    ensures multiset(AllForums(GroupsOf(forums + [f], categories)))
            == multiset(AllForums(GroupsOf(forums, categories))) + (if f.category in categories then multiset{f} else multiset{})
  {
    if categories != [] {
      var n := |categories| - 1;
      var front := categories[..n];
      var c := categories[n];
      assert categories == front + [c];
      DistinctSplit(categories);
      GroupsGrow(forums, f, front);
      AllGroupsAppend(forums + [f], front, c);
      AllGroupsAppend(forums, front, c);
      InCategoryAppend(forums, f, c);
      ghost var grownFront := AllForums(GroupsOf(forums + [f], front));
      ghost var oldFront := AllForums(GroupsOf(forums, front));
      ghost var added := if f.category in front then multiset{f} else multiset{};
      ghost var here := if f.category == c then multiset{f} else multiset{};
      assert multiset(grownFront) == multiset(oldFront) + added;
      assert multiset(InCategory(forums + [f], c)) == multiset(InCategory(forums, c)) + here;
      assert (if f.category in categories then multiset{f} else multiset{}) == added + here;
    }
  }

  /** The groups together hold exactly the input forums: none lost, none duplicated. */
  lemma {:induction false} GroupsPartitionForums(forums: seq<Forum>)
    ensures multiset(AllForums(Grouped(forums))) == multiset(forums)
  {
    if forums != [] {
      var prefix := forums[..|forums| - 1];
      var f := forums[|forums| - 1];
      assert forums == prefix + [f];
      GroupsPartitionForums(prefix);
      var earlier := Categories(prefix);
      CategoriesAreTheCategories(prefix);
      GroupsGrow(prefix, f, earlier);
      if f.category !in earlier {
        NotListedIsEmpty(prefix, f.category);
        InCategoryAppend(prefix, f, f.category);
        AllGroupsAppend(forums, earlier, f.category);
      }
    }
  }
}
