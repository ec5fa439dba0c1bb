/** The bounded list of recent client addresses kept per API key (internal/auth/api_keys.go). */
module RecentList {

  function RemoveFirst(list: seq<string>, item: string): seq<string> {
    if list == [] then [] else if list[0] == item then list[1..] else [list[0]] + RemoveFirst(list[1..], item)
  }

  function Take(list: seq<string>, n: nat): seq<string> {
    if n == 0 || list == [] then [] else [list[0]] + Take(list[1..], n - 1)
  }

  lemma {:induction false} TakeIsPrefix(list: seq<string>, n: nat)
    ensures Take(list, n) == if n < |list| then list[..n] else list
  {
    if n > 0 && list != [] {
      TakeIsPrefix(list[1..], n - 1);
    }
  }

  function AddRecent(list: seq<string>, item: string, max: nat): seq<string> {
    Take([item] + RemoveFirst(list, item), max)
  }

  lemma {:induction false} RemoveFirstAt(list: seq<string>, item: string, i: nat)
    requires i <= |list| && (forall k :: 0 <= k < i ==> list[k] != item) && (i < |list| ==> list[i] == item)
    ensures RemoveFirst(list, item) == if i < |list| then list[..i] + list[i + 1..] else list
  {
    if i == 0 {
      assert i < |list| ==> list[..0] + list[1..] == list[1..];
    } else {
      var rest := list[1..];
      RemoveFirstAt(rest, item, i - 1);
      assert list == [list[0]] + rest;
      if i < |list| {
        assert list[..i] == [list[0]] + rest[..i - 1] && list[i + 1..] == rest[i..];
      }
    }
  }

  method AddToRecentList(list: seq<string>, item: string, maxSize: nat) returns (r: seq<string>)
    ensures r == AddRecent(list, item, maxSize)
  {
    r := list;
    var i := 0;
    while i < |list| && list[i] != item
      invariant 0 <= i <= |list|
      invariant forall k :: 0 <= k < i ==> list[k] != item
    {
      i := i + 1;
    }
    RemoveFirstAt(list, item, i);
    if i < |list| {
      r := list[..i] + list[i + 1..];
    }
    r := [item] + r;
    TakeIsPrefix(r, maxSize);
    if |r| > maxSize {
      r := r[..maxSize];
    }
  }

  /** The stored list after a whole history of addresses. */
  function Stored(history: seq<string>, max: nat): seq<string> {
    if history == [] then [] else AddRecent(Stored(history[..|history| - 1], max), history[|history| - 1], max)
  }

  /** All addresses ever seen, most recently used first. */
  function MostRecentFirst(history: seq<string>): seq<string> {
    if history == [] then [] else
    [history[|history| - 1]] + RemoveFirst(MostRecentFirst(history[..|history| - 1]), history[|history| - 1])
  }

  ghost predicate Distinct(list: seq<string>) {
    forall i, j :: 0 <= i < j < |list| ==> list[i] != list[j]
  }

  lemma {:induction false} RemoveFirstMembers(list: seq<string>, item: string)
    requires Distinct(list)
    ensures forall x :: x in RemoveFirst(list, item) <==> x in list && x != item
  {
    if list != [] {
      RemoveFirstMembers(list[1..], item);
      assert forall x :: x in list <==> x == list[0] || x in list[1..];
    }
  }

  lemma {:induction false} RemoveKeepsDistinct(list: seq<string>, item: string)
    requires Distinct(list)
    ensures Distinct(RemoveFirst(list, item))
  {
    if list != [] && list[0] != item {
      RemoveKeepsDistinct(list[1..], item);
      RemoveFirstMembers(list[1..], item);
      DistinctCons(list[0], RemoveFirst(list[1..], item));
    }
  }

  lemma DistinctCons(x: string, list: seq<string>)
    requires Distinct(list) && x !in list
    ensures Distinct([x] + list)
  {
  }

  lemma {:induction false} RemoveBeforeTake(list: seq<string>, item: string, n: nat)
    ensures Take(RemoveFirst(Take(list, n + 1), item), n) == Take(RemoveFirst(list, item), n)
    decreases list
  {
    if list != [] {
      var rest := Take(list[1..], n);
      assert Take(list, n + 1) == [list[0]] + rest;
      assert ([list[0]] + rest)[1..] == rest;
      if list[0] == item {
        TakeTwice(list[1..], n);
      } else if n > 0 {
        RemoveBeforeTake(list[1..], item, n - 1);
        assert ([list[0]] + RemoveFirst(rest, item))[1..] == RemoveFirst(rest, item);
        assert ([list[0]] + RemoveFirst(list[1..], item))[1..] == RemoveFirst(list[1..], item);
      }
    }
  }

  lemma {:induction false} TakeTwice(list: seq<string>, n: nat)
    ensures Take(Take(list, n), n) == Take(list, n)
  {
    if n > 0 && list != [] {
      TakeTwice(list[1..], n - 1);
      assert Take(list, n)[1..] == Take(list[1..], n - 1);
    }
  }

  /** Truncating before or after an insertion makes no difference. */
  lemma TruncateEarly(list: seq<string>, item: string, max: nat)
    ensures AddRecent(Take(list, max), item, max) == Take([item] + RemoveFirst(list, item), max)
  {
    if max > 0 {
      RemoveBeforeTake(list, item, max - 1);
      assert ([item] + RemoveFirst(list, item))[1..] == RemoveFirst(list, item);
      assert ([item] + RemoveFirst(Take(list, max), item))[1..] == RemoveFirst(Take(list, max), item);
    }
  }

  /** The stored list has no duplicates and is the front of the full most-recently-used order. */
  lemma {:induction false} StoredIsFrontOfMru(history: seq<string>, max: nat)
    ensures Distinct(MostRecentFirst(history)) && Distinct(Stored(history, max))
    ensures Stored(history, max) == Take(MostRecentFirst(history), max)
  {
    if history != [] {
      var init, last := history[..|history| - 1], history[|history| - 1];
      StoredIsFrontOfMru(init, max);
      var order := MostRecentFirst(init);
      TruncateEarly(order, last, max);
      RemoveKeepsDistinct(order, last);
      RemoveFirstMembers(order, last);
      DistinctCons(last, RemoveFirst(order, last));
      TakeIsPrefix(MostRecentFirst(history), max);
    }
  }

  /** The position of an address's latest use, or -1. */
  function LastUse(history: seq<string>, x: string): int {
    if history == [] then -1
    else if history[|history| - 1] == x then |history| - 1
    else LastUse(history[..|history| - 1], x)
  }

  /** Every element was used later than all that follow it. */
  ghost predicate ByLastUse(history: seq<string>, list: seq<string>) {
    list != [] ==>
      && (forall x :: x in list[1..] ==> LastUse(history, x) < LastUse(history, list[0]))
      && ByLastUse(history, list[1..])
  }

  lemma {:induction false} RemoveKeepsOrder(history: seq<string>, list: seq<string>, item: string)
    requires Distinct(list) && ByLastUse(history, list)
    ensures ByLastUse(history, RemoveFirst(list, item))
  {
    if list != [] && list[0] != item {
      RemoveKeepsOrder(history, list[1..], item);
      RemoveFirstMembers(list[1..], item);
      assert RemoveFirst(list, item)[1..] == RemoveFirst(list[1..], item);
    }
  }

  lemma {:induction false} OrderAfterUse(history: seq<string>, last: string, list: seq<string>)
    requires last !in list && ByLastUse(history, list)
    ensures ByLastUse(history + [last], list)
  {
    assert (history + [last])[..|history|] == history;
    if list != [] {
      assert list[0] in list && forall x :: x in list[1..] ==> x in list;
      OrderAfterUse(history, last, list[1..]);
    }
  }

  lemma {:induction false} LastUseBound(history: seq<string>, x: string)
    ensures LastUse(history, x) < |history|
  {
    if history != [] {
      LastUseBound(history[..|history| - 1], x);
    }
  }

  /** The full order really is by latest use, and lists exactly the addresses seen. */
  lemma {:induction false} MruIsByLastUse(history: seq<string>)
    ensures forall x :: x in MostRecentFirst(history) <==> x in history
    ensures ByLastUse(history, MostRecentFirst(history))
  {
    if history != [] {
      var init, last := history[..|history| - 1], history[|history| - 1];
      var order := MostRecentFirst(init);
      var rest := RemoveFirst(order, last);
      MruIsByLastUse(init);
      StoredIsFrontOfMru(init, 0);
      RemoveFirstMembers(order, last);
      RemoveKeepsOrder(init, order, last);
      OrderAfterUse(init, last, rest);
      NewestFirst(init, last, rest);
      SameMembers(init, last, order, rest);
      assert history == init + [last];
    }
  }

  lemma NewestFirst(history: seq<string>, last: string, rest: seq<string>)
    requires last !in rest && ByLastUse(history + [last], rest)
    ensures ByLastUse(history + [last], [last] + rest)
  {
    var longer := history + [last];
    assert longer[..|history|] == history && ([last] + rest)[1..] == rest;
    forall x | x in rest
      ensures LastUse(longer, x) < LastUse(longer, last)
    {
      LastUseBound(history, x);
    }
  }

  lemma SameMembers(init: seq<string>, last: string, order: seq<string>, rest: seq<string>)
    requires forall x :: x in order <==> x in init
    requires forall x :: x in rest <==> x in order && x != last
    ensures forall x :: x in [last] + rest <==> x in init + [last]
  {
  }
}
