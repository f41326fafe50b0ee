/**
 * The server and global leaderboards of `Economy` (casinobank/casinobank.py):
 * accounts ranked by balance, highest first, cut to the requested size; the
 * global board keeps only the richest account of each user.
 */
module Leaderboard {
  import opened Ledger

  /** Balances never increase along the sequence. */
  predicate SortedDesc(s: seq<AccountRow>) {
    forall i, j :: 0 <= i < j < |s| ==> s[i].balance >= s[j].balance
  }

  /**
   * `x` placed after every entry whose balance is at least its own, which is
   * how a stable descending sort orders equal balances.
   */
  function Insert(x: AccountRow, s: seq<AccountRow>): (r: seq<AccountRow>)
    ensures |r| == |s| + 1
    ensures r[0] == x || (|s| > 0 && r[0] == s[0])
  {
    if |s| == 0 then [x]
    else if s[0].balance >= x.balance then [s[0]] + Insert(x, s[1..])
    else [x] + s
  }

  /** Inserting into a ranked sequence keeps it ranked. */
  lemma {:induction false} InsertSorted(x: AccountRow, s: seq<AccountRow>)
    requires SortedDesc(s)
    ensures SortedDesc(Insert(x, s))
    decreases |s|
  {
    if |s| > 0 {
      var r := Insert(x, s);
      if s[0].balance >= x.balance {
        var rest := s[1..];
        assert SortedDesc(rest);
        InsertSorted(x, rest);
        var tail := Insert(x, rest);
        assert r == [s[0]] + tail;
        assert s[0].balance >= tail[0].balance;
        forall i, j | 0 <= i < j < |r|
          ensures r[i].balance >= r[j].balance
        {
          if i == 0 {
            assert r[j] == tail[j - 1];
          } else {
            assert r[i] == tail[i - 1] && r[j] == tail[j - 1];
          }
        }
      } else {
        assert r == [x] + s;
        forall i, j | 0 <= i < j < |r|
          ensures r[i].balance >= r[j].balance
        {
          if i == 0 {
            assert r[j] == s[j - 1];
          } else {
            assert r[i] == s[i - 1] && r[j] == s[j - 1];
          }
        }
      }
    }
  }

  /** Inserting adds exactly `x` and loses nothing. */
  lemma {:induction false} InsertAdds(x: AccountRow, s: seq<AccountRow>)
    ensures multiset(Insert(x, s)) == multiset(s) + multiset{x}
    decreases |s|
  {
    if |s| > 0 && s[0].balance >= x.balance {
      InsertAdds(x, s[1..]);
      assert s == [s[0]] + s[1..];
    }
  }

  /** `sorted(accounts, key=balance, reverse=True)`. */
  function SortByBalance(s: seq<AccountRow>): (r: seq<AccountRow>)
    ensures SortedDesc(r)
    ensures multiset(r) == multiset(s)
    ensures |r| == |s|
  {
    if |s| == 0 then []
    else
      var init := s[..|s| - 1];
      var sorted := SortByBalance(init);
      InsertSorted(s[|s| - 1], sorted);
      InsertAdds(s[|s| - 1], sorted);
      LastSplit(s);
      Insert(s[|s| - 1], sorted)
  }

  /** A non-empty sequence is its front and its last element. */
  lemma LastSplit(s: seq<AccountRow>)
    requires |s| > 0
    ensures multiset(s) == multiset(s[..|s| - 1]) + multiset{s[|s| - 1]}
  {
    assert s == s[..|s| - 1] + [s[|s| - 1]];
  }

  /** The number of places printed: `top < 1` means 10, and never more than `n`. */
  function ClampTop(top: int, n: nat): (r: nat)
    ensures r <= n
    ensures top >= 1 ==> r == if top < n then top else n
    ensures top < 1 ==> r == if 10 < n then 10 else n
  {
    var t := if top < 1 then 10 else top;
    if n < t then n else t
  }

  /** `s[:top]` after the clamping: a prefix of the clamped length. */
  function Top(s: seq<AccountRow>, top: int): (r: seq<AccountRow>)
    ensures |r| == ClampTop(top, |s|) && r <= s
  {
    s[..ClampTop(top, |s|)]
  }

  /** The rows of the server leaderboard, best first. */
  function ServerLeaderboard(rows: seq<AccountRow>, top: int): (r: seq<AccountRow>)
    ensures |r| == ClampTop(top, |rows|)
    ensures SortedDesc(r)
  {
    Top(SortByBalance(rows), top)
  }

  /** In a ranked sequence every entry of a prefix beats every entry after it. */
  lemma PrefixDominates(s: seq<AccountRow>, n: nat)
    requires SortedDesc(s) && n <= |s|
    ensures forall x, y :: x in s[..n] && y in s[n..] ==> x.balance >= y.balance
  {
    forall x, y | x in s[..n] && y in s[n..]
      ensures x.balance >= y.balance
    {
      var i :| 0 <= i < n && s[..n][i] == x;
      var j :| 0 <= j < |s| - n && s[n..][j] == y;
      assert s[i] == x && s[n + j] == y;
    }
  }

  /**
   * The server board holds the requested number of places, ranked, drawn from
   * the server's accounts, and no account left off it is richer than one on it.
   */
  lemma {:induction false} ServerLeaderboardIsTop(rows: seq<AccountRow>, top: int)
    ensures var r := ServerLeaderboard(rows, top);
            && |r| == ClampTop(top, |rows|)
            && SortedDesc(r)
            && multiset(r) <= multiset(rows)
            && forall x, y :: x in r && y in multiset(rows) - multiset(r) ==> x.balance >= y.balance
  {
    var sorted := SortByBalance(rows);
    var n := ClampTop(top, |rows|);
    var r := sorted[..n];
    assert sorted == r + sorted[n..];
    assert multiset(rows) - multiset(r) == multiset(sorted[n..]);
    PrefixDominates(sorted, n);
  }

  /** Whether some row of `s` belongs to user `id`. */
  predicate HasUser(s: seq<AccountRow>, id: Id) {
    exists i :: 0 <= i < |s| && s[i].id == id
  }

  /** `already_in_list`: a linear scan for a row with the same user id. */
  method AlreadyInList(accounts: seq<AccountRow>, user: AccountRow) returns (found: bool)
    ensures found <==> HasUser(accounts, user.id)
  {
    for i := 0 to |accounts|
      invariant !HasUser(accounts[..i], user.id)
    {
      if user.id == accounts[i].id {
        assert accounts[..i + 1][i].id == user.id;
        assert HasUser(accounts[..i + 1], user.id);
        return true;
      }
      assert forall j :: 0 <= j < i + 1 ==> accounts[..i + 1][j] == accounts[j];
    }
    assert accounts[..|accounts|] == accounts;
    return false;
  }

  /** The global list's loop: a row is kept unless its user is already listed. */
  function FirstPerUser(s: seq<AccountRow>): (r: seq<AccountRow>)
    ensures |r| <= |s|
    ensures |r| == 0 <==> |s| == 0
  {
    if |s| == 0 then []
    else
      var kept := FirstPerUser(s[..|s| - 1]);
      if HasUser(kept, s[|s| - 1].id) then kept else kept + [s[|s| - 1]]
  }

  /** The row at index `i` is the first one of its user in `s`. */
  predicate FirstOfItsUser(s: seq<AccountRow>, i: int)
    requires 0 <= i < |s|
  {
    forall j :: 0 <= j < i ==> s[j].id != s[i].id
  }

  /** No two rows of `r` belong to the same user. */
  predicate DistinctUsers(r: seq<AccountRow>) {
    forall a, b :: 0 <= a < b < |r| ==> r[a].id != r[b].id
  }

  /** Every user with a row in `s` has one in `r`. */
  predicate CoversUsers(s: seq<AccountRow>, r: seq<AccountRow>) {
    forall i :: 0 <= i < |s| ==> HasUser(r, s[i].id)
  }

  /** Every row of `r` is the first row of its user in `s`. */
  predicate FirstsOf(s: seq<AccountRow>, r: seq<AccountRow>) {
    forall a :: 0 <= a < |r| ==> exists i :: 0 <= i < |s| && s[i] == r[a] && FirstOfItsUser(s, i)
  }

  /** The deduplicated list names each user at most once. */
  lemma {:induction false} FirstPerUserDistinct(s: seq<AccountRow>)
    ensures DistinctUsers(FirstPerUser(s))
  {
    if |s| > 0 {
      var prefix := s[..|s| - 1];
      FirstPerUserDistinct(prefix);
      var kept := FirstPerUser(prefix);
      if !HasUser(kept, s[|s| - 1].id) {
        assert FirstPerUser(s) == kept + [s[|s| - 1]];
      }
    }
  }

  /** The deduplicated list names every user of the input. */
  lemma {:induction false} FirstPerUserCovers(s: seq<AccountRow>)
    ensures CoversUsers(s, FirstPerUser(s))
  {
    if |s| > 0 {
      var n := |s| - 1;
      var prefix := s[..n];
      FirstPerUserCovers(prefix);
      var kept := FirstPerUser(prefix);
      var r := FirstPerUser(s);
      assert r[..|kept|] == kept;
      forall i | 0 <= i < n
        ensures HasUser(r, s[i].id)
      {
        assert prefix[i] == s[i];
        assert HasUser(kept, prefix[i].id);
        var a :| 0 <= a < |kept| && kept[a].id == s[i].id;
        assert r[a] == kept[a];
      }
      if !HasUser(kept, s[n].id) {
        assert r[|kept|].id == s[n].id;
      }
    }
  }

  /** Every kept row is the first row of its user in the input. */
  lemma {:induction false} FirstPerUserFirsts(s: seq<AccountRow>)
    ensures FirstsOf(s, FirstPerUser(s))
  {
    if |s| > 0 {
      var n := |s| - 1;
      var prefix := s[..n];
      FirstPerUserFirsts(prefix);
      var kept := FirstPerUser(prefix);
      var r := FirstPerUser(s);
      forall a | 0 <= a < |kept|
        ensures exists i :: 0 <= i < |s| && s[i] == kept[a] && FirstOfItsUser(s, i)
      {
        var i :| 0 <= i < |prefix| && prefix[i] == kept[a] && FirstOfItsUser(prefix, i);
        assert s[i] == kept[a] && FirstOfItsUser(s, i);
      }
      if !HasUser(kept, s[n].id) {
        FirstPerUserCovers(prefix);
        forall i | 0 <= i < n
          ensures s[i].id != s[n].id
        {
          assert prefix[i] == s[i];
          assert HasUser(kept, prefix[i].id);
        }
        assert FirstOfItsUser(s, n);
        assert r == kept + [s[n]];
        forall a | 0 <= a < |r|
          ensures exists i :: 0 <= i < |s| && s[i] == r[a] && FirstOfItsUser(s, i)
        {
          if a < |kept| {
            assert r[a] == kept[a];
          } else {
            assert s[n] == r[a];
          }
        }
      }
    }
  }

  /** Dropping rows from a ranked input leaves it ranked. */
  lemma {:induction false} FirstPerUserSorted(s: seq<AccountRow>)
    requires SortedDesc(s)
    ensures SortedDesc(FirstPerUser(s))
  {
    if |s| > 0 {
      var n := |s| - 1;
      var prefix := s[..n];
      assert SortedDesc(prefix);
      FirstPerUserSorted(prefix);
      var kept := FirstPerUser(prefix);
      if !HasUser(kept, s[n].id) {
        FirstPerUserFirsts(prefix);
        assert FirstsOf(prefix, kept);
        forall a | 0 <= a < |kept|
          ensures kept[a].balance >= s[n].balance
        {
          var i :| 0 <= i < |prefix| && prefix[i] == kept[a] && FirstOfItsUser(prefix, i);
          assert s[i] == kept[a];
        }
        assert FirstPerUser(s) == kept + [s[n]];
      }
    }
  }

  /** Each row of `r` carries the highest balance its user has in `s`. */
  predicate RichestOf(s: seq<AccountRow>, r: seq<AccountRow>) {
    forall a, i :: 0 <= a < |r| && 0 <= i < |s| && s[i].id == r[a].id ==> r[a].balance >= s[i].balance
  }

  /** On a ranked input each kept row is its user's richest. */
  lemma FirstPerUserKeepsRichest(s: seq<AccountRow>)
    requires SortedDesc(s)
    ensures RichestOf(s, FirstPerUser(s))
  {
    var r := FirstPerUser(s);
    FirstPerUserFirsts(s);
    assert FirstsOf(s, r);
    forall a, i | 0 <= a < |r| && 0 <= i < |s| && s[i].id == r[a].id
      ensures r[a].balance >= s[i].balance
    {
      var f :| 0 <= f < |s| && s[f] == r[a] && FirstOfItsUser(s, f);
      assert !(i < f);
    }
  }

  /** `_global_leaderboard`: rank, drop every user's later rows, cut to `top`. */
  method GlobalLeaderboard(rows: seq<AccountRow>, top: int) returns (board: seq<AccountRow>)
    ensures board == Top(FirstPerUser(SortByBalance(rows)), top)
  {
    var sorted := SortByBalance(rows);
    var unique := [];
    for i := 0 to |sorted|
      invariant unique == FirstPerUser(sorted[..i])
    {
      assert sorted[..i + 1][..i] == sorted[..i];
      var listed := AlreadyInList(unique, sorted[i]);
      if !listed {
        unique := unique + [sorted[i]];
      }
    }
    assert sorted[..|sorted|] == sorted;
    board := Top(unique, top);
  }

  /** The global board is ranked and names each user at most once. */
  lemma GlobalRankedAndDistinct(rows: seq<AccountRow>, top: int)
    ensures var r := Top(FirstPerUser(SortByBalance(rows)), top);
            SortedDesc(r) && DistinctUsers(r)
  {
    var unique := FirstPerUser(SortByBalance(rows));
    FirstPerUserSorted(SortByBalance(rows));
    FirstPerUserDistinct(SortByBalance(rows));
    var r := Top(unique, top);
    assert forall a :: 0 <= a < |r| ==> r[a] == unique[a];
  }

  /** Every row on the global board is one of the input rows, and its user's richest. */
  lemma GlobalRichest(rows: seq<AccountRow>, top: int)
    ensures var r := Top(FirstPerUser(SortByBalance(rows)), top);
            && (forall a :: 0 <= a < |r| ==> r[a] in rows)
            && (forall a, x :: 0 <= a < |r| && x in rows && x.id == r[a].id ==> r[a].balance >= x.balance)
  {
    var sorted := SortByBalance(rows);
    var unique := FirstPerUser(sorted);
    var r := Top(unique, top);
    FirstPerUserFirsts(sorted);
    FirstPerUserKeepsRichest(sorted);
    assert FirstsOf(sorted, unique) && RichestOf(sorted, unique);
    forall a | 0 <= a < |r|
      ensures r[a] in rows
    {
      assert r[a] == unique[a];
      var i :| 0 <= i < |sorted| && sorted[i] == unique[a] && FirstOfItsUser(sorted, i);
      assert sorted[i] in multiset(rows);
    }
    forall a, x | 0 <= a < |r| && x in rows && x.id == r[a].id
      ensures r[a].balance >= x.balance
    {
      assert r[a] == unique[a];
      assert x in multiset(sorted);
      var i :| 0 <= i < |sorted| && sorted[i] == x;
    }
  }

  /** When `top` leaves room for everyone, every user of the input is on the global board. */
  lemma GlobalCovers(rows: seq<AccountRow>, top: int)
    ensures var unique := FirstPerUser(SortByBalance(rows));
            ClampTop(top, |unique|) == |unique| ==> forall x :: x in rows ==> HasUser(Top(unique, top), x.id)
  {
    var sorted := SortByBalance(rows);
    var unique := FirstPerUser(sorted);
    if ClampTop(top, |unique|) == |unique| {
      var r := Top(unique, top);
      assert r == unique;
      FirstPerUserCovers(sorted);
      assert CoversUsers(sorted, unique);
      forall x | x in rows
        ensures HasUser(r, x.id)
      {
        assert x in multiset(sorted);
        var i :| 0 <= i < |sorted| && sorted[i] == x;
      }
    }
  }

  /**
   * The global board is ranked, lists each user at most once and with that
   * user's highest balance, and names every user when `top` allows.
   */
  lemma GlobalLeaderboardSpec(rows: seq<AccountRow>, top: int)
    ensures var unique := FirstPerUser(SortByBalance(rows));
            var r := Top(unique, top);
            && SortedDesc(r)
            && DistinctUsers(r)
            && (forall a :: 0 <= a < |r| ==> r[a] in rows)
            && (forall a, x :: 0 <= a < |r| && x in rows && x.id == r[a].id ==> r[a].balance >= x.balance)
            && (ClampTop(top, |unique|) == |unique| ==> forall x :: x in rows ==> HasUser(r, x.id))
  {
    GlobalRankedAndDistinct(rows, top);
    GlobalRichest(rows, top);
    GlobalCovers(rows, top);
  }
}
