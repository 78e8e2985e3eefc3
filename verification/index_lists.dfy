/**
  The two name lists of the entry form: every player name and every non-empty shop name, each
  sorted and without repeats, as `sorted(set(...))` produces them.
*/
module IndexLists {
  import opened MatchRecord
  import opened Sequences

  /** Python's string order: compare code points left to right; a proper prefix comes first. */
  predicate Below(a: string, b: string)
  {
    if a == [] then b != []
    else if b == [] then false
    else if a[0] != b[0] then a[0] < b[0]
    else Below(a[1..], b[1..])
  }

  lemma {:induction false} BelowIrreflexive(a: string)
    ensures !Below(a, a)
  {
    if a != [] {
      BelowIrreflexive(a[1..]);
    }
  }

  lemma {:induction false} BelowTransitive(a: string, b: string, c: string)
    requires Below(a, b) && Below(b, c)
    ensures Below(a, c)
  {
    if a != [] && a[0] == b[0] && b[0] == c[0] {
      BelowTransitive(a[1..], b[1..], c[1..]);
    }
  }

  lemma {:induction false} BelowTotal(a: string, b: string)
    requires a != b
    ensures Below(a, b) || Below(b, a)
  {
    if a != [] && b != [] && a[0] == b[0] {
      assert a == [a[0]] + a[1..] && b == [b[0]] + b[1..];
      BelowTotal(a[1..], b[1..]);
    }
  }

  lemma BelowAsymmetric(a: string, b: string)
    requires Below(a, b)
    ensures !Below(b, a)
  {
  }

  predicate StrictlySorted(s: seq<string>)
  {
    forall i, j :: 0 <= i < j < |s| ==> Below(s[i], s[j])
  }

  /** Adds `x` to a sorted list at its place, unless it is already there. */
  function Insert(s: seq<string>, x: string): (r: seq<string>)
    requires StrictlySorted(s)
    ensures StrictlySorted(r)
    ensures forall y :: y in r <==> y in s || y == x
  {
    if s == [] then [x]
    else if x == s[0] then s
    else if Below(x, s[0]) then
      PrependSorted(x, s);
      [x] + s
    else
      BelowTotal(x, s[0]);
      var rest := Insert(s[1..], x);
      assert forall y :: y in rest ==> Below(s[0], y) by {
        forall y | y in rest ensures Below(s[0], y) {
          if y != x {
            var k :| 1 <= k < |s| && s[k] == y;
          }
        }
      }
      PrependSorted(s[0], rest);
      [s[0]] + rest
  }

  lemma PrependSorted(x: string, s: seq<string>)
    requires StrictlySorted(s)
    requires s == [] || Below(x, s[0])
    ensures StrictlySorted([x] + s)
  {
    forall j | 1 <= j < |s| ensures Below(x, s[j]) {
      BelowTransitive(x, s[0], s[j]);
    }
  }

  /** `sorted(set(names))`. */
  function SortedSet(names: seq<string>): (r: seq<string>)
    ensures StrictlySorted(r)
    ensures forall y :: y in r <==> y in names
  {
    if names == [] then [] else Insert(SortedSet(names[..|names| - 1]), names[|names| - 1])
  }

  /** A strictly sorted list is determined by its elements: there is only one `sorted(set(...))`. */
  lemma {:induction false} SortedUnique(a: seq<string>, b: seq<string>)
    requires StrictlySorted(a) && StrictlySorted(b)
    requires forall y :: y in a <==> y in b
    ensures a == b
  {
    assert |a| > 0 ==> a[0] in a;
    assert |b| > 0 ==> b[0] in b;
    if a != [] {
      assert a[0] in b && b[0] in a;
      if a[0] != b[0] {
        var k :| 0 <= k < |b| && b[k] == a[0];
        var m :| 0 <= m < |a| && a[m] == b[0];
        BelowAsymmetric(b[0], a[0]);
      }
      assert a == [a[0]] + a[1..] && b == [b[0]] + b[1..];
      forall y ensures y in a[1..] <==> y in b[1..] {
        if y in a[1..] {
          var k :| 1 <= k < |a| && a[k] == y;
          BelowIrreflexive(y);
          assert y != b[0] && y in b;
          var j :| 0 <= j < |b| && b[j] == y;
          assert b[1..][j - 1] == y;
        }
        if y in b[1..] {
          var k :| 1 <= k < |b| && b[k] == y;
          BelowIrreflexive(y);
          assert y != a[0] && y in a;
          var j :| 0 <= j < |a| && a[j] == y;
          assert a[1..][j - 1] == y;
        }
      }
      SortedUnique(a[1..], b[1..]);
    }
  }

  predicate Plays(matches: seq<Match>, name: string)
  {
    exists i :: 0 <= i < |matches| && (matches[i].player1 == name || matches[i].player2 == name)
  }

  predicate HostedAt(matches: seq<Match>, shop: string)
  {
    exists i :: 0 <= i < |matches| && matches[i].shop == shop
  }

  function PlayerNames(matches: seq<Match>): (names: seq<string>)
    ensures forall name :: name in names <==> Plays(matches, name)
  {
    if matches == [] then []
    else
      var m := matches[|matches| - 1];
      var init := matches[..|matches| - 1];
      var names := PlayerNames(init) + [m.player1, m.player2];
      assert forall name :: Plays(matches, name) <==> Plays(init, name) || name == m.player1 || name == m.player2 by {
        forall name | Plays(matches, name) && name != m.player1 && name != m.player2 ensures Plays(init, name) {
          var i :| 0 <= i < |matches| && (matches[i].player1 == name || matches[i].player2 == name);
          assert matches[i] == init[i];
        }
        forall name | Plays(init, name) ensures Plays(matches, name) {
          var i :| 0 <= i < |init| && (init[i].player1 == name || init[i].player2 == name);
          assert matches[i] == init[i];
        }
      }
      names
  }

  /** Shop names of all matches, leaving out the empty ones (`if m.shop`). */
  function ShopNames(matches: seq<Match>): (names: seq<string>)
    ensures forall name :: name in names <==> name != "" && HostedAt(matches, name)
  {
    if matches == [] then []
    else
      var m := matches[|matches| - 1];
      var init := matches[..|matches| - 1];
      var names := ShopNames(init) + if m.shop == "" then [] else [m.shop];
      assert forall name :: HostedAt(matches, name) <==> HostedAt(init, name) || name == m.shop by {
        forall name | HostedAt(matches, name) && name != m.shop ensures HostedAt(init, name) {
          var i :| 0 <= i < |matches| && matches[i].shop == name;
          assert matches[i] == init[i];
        }
        forall name | HostedAt(init, name) ensures HostedAt(matches, name) {
          var i :| 0 <= i < |init| && init[i].shop == name;
          assert matches[i] == init[i];
        }
      }
      names
  }

  /** The player list: sorted, no repeats, exactly the names on either side of some match. */
  function PlayerList(matches: seq<Match>): (r: seq<string>)
    ensures StrictlySorted(r)
    ensures forall name :: name in r <==> Plays(matches, name)
  {
    SortedSet(PlayerNames(matches))
  }

  /** The shop list: sorted, no repeats, exactly the non-empty shop names of the matches. */
  function ShopList(matches: seq<Match>): (r: seq<string>)
    ensures StrictlySorted(r)
    ensures forall name :: name in r <==> name != "" && HostedAt(matches, name)
  {
    SortedSet(ShopNames(matches))
  }

  /** Strict sorting leaves no repeated name. */
  lemma SortedHasNoRepeats(s: seq<string>)
    requires StrictlySorted(s)
    ensures Distinct(s)
  {
    forall i, j | 0 <= i < j < |s| ensures s[i] != s[j] {
      BelowIrreflexive(s[i]);
    }
  }

  /** Any sorted, repeat-free list of exactly the players is the player list. */
  lemma PlayerListCanonical(matches: seq<Match>, s: seq<string>)
    requires StrictlySorted(s)
    requires forall name :: name in s <==> Plays(matches, name)
    ensures s == PlayerList(matches)
  {
    SortedUnique(s, PlayerList(matches));
  }

  /** Any sorted, repeat-free list of exactly the non-empty shop names is the shop list. */
  lemma ShopListCanonical(matches: seq<Match>, s: seq<string>)
    requires StrictlySorted(s)
    requires forall name :: name in s <==> name != "" && HostedAt(matches, name)
    ensures s == ShopList(matches)
  {
    SortedUnique(s, ShopList(matches));
  }
}
