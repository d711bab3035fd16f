/**
 * The account groups of the campaign's parallel path:
 * `[accounts[j:j+limit] for j in range(0, len(accounts), limit)]`.
 */
module AccountGroups {
  /** Consecutive slices of `limit` items, the last one possibly shorter. */
  function Groups<A>(items: seq<A>, limit: nat): seq<seq<A>>
    requires limit >= 1
    decreases |items|
  {
    if items == [] then []
    else if |items| <= limit then [items]
    else [items[..limit]] + Groups(items[limit..], limit)
  }

  /** The groups' items, in order. */
  function Flatten<A>(groups: seq<seq<A>>): seq<A>
  {
    if groups == [] then [] else groups[0] + Flatten(groups[1..])
  }

  /**
   * The groups partition the items in order: their concatenation is the
   * items, no group is empty or longer than `limit`, every group but the last
   * has exactly `limit` items.
   */
  lemma {:induction false} GroupsPartition<A>(items: seq<A>, limit: nat)
    requires limit >= 1
    ensures var groups := Groups(items, limit);
      && Flatten(groups) == items
      && (forall g | g in groups :: 0 < |g| <= limit)
      && (forall k | 0 <= k < |groups| - 1 :: |groups[k]| == limit)
    decreases |items|
  {
    var groups := Groups(items, limit);
    if items == [] {
    } else if |items| <= limit {
      assert groups == [items];
      assert Flatten(groups) == items + Flatten([]);
    } else {
      var rest := Groups(items[limit..], limit);
      GroupsPartition(items[limit..], limit);
      assert groups == [items[..limit]] + rest;
      assert groups[1..] == rest;
      assert Flatten(groups) == items[..limit] + items[limit..];
      assert items[..limit] + items[limit..] == items;
      forall k | 0 <= k < |groups| - 1
        ensures |groups[k]| == limit
      {
        if k > 0 {
          assert groups[k] == rest[k - 1];
        }
      }
    }
  }

  /** With a limit of one, the groups are the single items, in order. */
  lemma {:induction false} GroupsOfOne<A>(items: seq<A>)
    ensures |Groups(items, 1)| == |items|
    ensures forall k | 0 <= k < |items| :: Groups(items, 1)[k] == [items[k]]
    decreases |items|
  {
    if |items| > 1 {
      GroupsOfOne(items[1..]);
      assert items[..1] == [items[0]];
      assert forall k | 1 <= k < |items| :: items[1..][k - 1] == items[k];
    } else if |items| == 1 {
      assert Groups(items, 1) == [items];
      assert items == [items[0]];
    }
  }
}
