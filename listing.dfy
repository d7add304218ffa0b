/**
 * The query part of `getAllUsers` in backend/controllers/userController.js:
 * the `page`/`limit` defaults, the skip arithmetic, `Math.ceil` for the page
 * count, and the `{ role: 'user' }` filter, newest-first sort, skip and limit.
 */
module Listing {
  import opened Wrappers
  import opened UserModel

  const DefaultPage := 1
  const DefaultLimit := 5

  /** `parseInt(q) || d`: an absent or unparsable value (NaN) and a parsed 0 both fall back to `d`. */
  function IntOr(q: Option<int>, d: int): (v: int)
    ensures q.Some? && q.value != 0 ==> v == q.value
    ensures q.None? || q.value == 0 ==> v == d
    ensures d != 0 ==> v != 0
  {
    if q.Some? && q.value != 0 then q.value else d
  }

  /** `Math.ceil(total / limit)`, for either sign of `limit`. */
  function CeilDiv(total: nat, limit: int): (r: int)
    requires limit != 0
    ensures limit > 0 ==> (r - 1) * limit < total <= r * limit
    ensures limit < 0 ==> r * limit <= total < (r - 1) * limit
  {
    if limit > 0 then
      var q := (total + limit - 1) / limit;
      assert q * limit == total + limit - 1 - (total + limit - 1) % limit;
      assert (q - 1) * limit == q * limit - limit;
      q
    else
      var q := total / -limit;
      assert q * -limit == total - total % -limit;
      assert (-q) * limit == q * -limit;
      assert (-q - 1) * limit == q * -limit + -limit;
      -q
  }

  /** With a positive limit there are no pages exactly when there are no users, and the pages hold them all. */
  lemma PageCountCoversUsers(total: nat, limit: int)
    requires limit > 0
    ensures CeilDiv(total, limit) == 0 <==> total == 0
    ensures CeilDiv(total, limit) >= 0 && CeilDiv(total, limit) * limit >= total
  {
    var r := CeilDiv(total, limit);
    assert r < 0 ==> r * limit < 0;
    assert r >= 1 ==> (r - 1) * limit >= 0;
  }

  /** The ids of the stored `user`-role accounts below `n`, in increasing (natural) order. */
  function UserIdsBelow(accounts: map<Id, Account>, n: nat): (r: seq<Id>)
    ensures |r| <= n
    ensures forall k :: 0 <= k < |r| ==> r[k] < n && r[k] in accounts && accounts[r[k]].role == User
  {
    if n == 0 then []
    else
      var prev := UserIdsBelow(accounts, n - 1);
      var id := n - 1;
      if id in accounts && accounts[id].role == User then prev + [id] else prev
  }

  /** The set the `{ role: 'user' }` filter selects among the ids below `n`. */
  function UserIds(accounts: map<Id, Account>, n: nat): set<Id> {
    set id | id in accounts && id < n && accounts[id].role == User
  }

  /** The listed ids are exactly the filtered set, each once, in increasing order. */
  lemma {:induction false} UserIdsBelowExact(accounts: map<Id, Account>, n: nat)
    ensures forall k :: 0 <= k < |UserIdsBelow(accounts, n)| ==> UserIdsBelow(accounts, n)[k] in UserIds(accounts, n)
    ensures forall id :: id in UserIds(accounts, n) ==> id in UserIdsBelow(accounts, n)
    ensures forall i, j :: 0 <= i < j < |UserIdsBelow(accounts, n)| ==> UserIdsBelow(accounts, n)[i] < UserIdsBelow(accounts, n)[j]
  {
    if n > 0 {
      UserIdsBelowExact(accounts, n - 1);
      var prev := UserIdsBelow(accounts, n - 1);
      var r := UserIdsBelow(accounts, n);
      assert forall k :: 0 <= k < |prev| ==> prev[k] < n - 1;
      assert forall k :: 0 <= k < |r| ==> r[k] in UserIds(accounts, n) by {
        forall k | 0 <= k < |r| ensures r[k] in UserIds(accounts, n) {
          if k < |prev| {
            assert r[k] == prev[k];
          }
        }
      }
    }
  }

  /** `countDocuments({ role: 'user' })`: the filter keeps one entry per `user`-role account. */
  lemma {:induction false} UserIdsCount(accounts: map<Id, Account>, n: nat)
    ensures |UserIdsBelow(accounts, n)| == |UserIds(accounts, n)|
  {
    if n > 0 {
      UserIdsCount(accounts, n - 1);
      var id := n - 1;
      var below := UserIds(accounts, n - 1);
      if id in accounts && accounts[id].role == User {
        assert UserIds(accounts, n) == below + {id};
        assert id !in below;
        assert |below + {id}| == |below| + 1;
      } else {
        assert UserIds(accounts, n) == below;
      }
    }
  }

  /** The accounts of `ids`, without passwords. */
  function Project(accounts: map<Id, Account>, ids: seq<Id>): (r: seq<PublicAccount>)
    requires forall k :: 0 <= k < |ids| ==> ids[k] in accounts
    ensures |r| == |ids| && forall k :: 0 <= k < |r| ==> r[k] == ToJson(accounts[ids[k]])
  {
    seq(|ids|, k requires 0 <= k < |ids| => ToJson(accounts[ids[k]]))
  }

  /** The stored `user`-role accounts below `n` in natural order, as `find({ role: 'user' }).select('-password')` gives them. */
  function UserRole(accounts: map<Id, Account>, n: nat): seq<PublicAccount> {
    UserIdsBelowExact(accounts, n);
    Project(accounts, UserIdsBelow(accounts, n))
  }

  predicate NewestFirst(s: seq<PublicAccount>) {
    forall i, j :: 0 <= i < j < |s| ==> s[i].createdAt >= s[j].createdAt
  }

  /** An entry no older than the head of a newest-first list can go in front of it. */
  lemma ConsNewestFirst(p: PublicAccount, s: seq<PublicAccount>)
    requires NewestFirst(s)
    requires s != [] ==> p.createdAt >= s[0].createdAt
    ensures NewestFirst([p] + s)
  {
    var r := [p] + s;
    forall i, j | 0 <= i < j < |r| ensures r[i].createdAt >= r[j].createdAt {
      if i == 0 {
        assert r[j] == s[j - 1];
      } else {
        assert r[i] == s[i - 1] && r[j] == s[j - 1];
      }
    }
  }

  /** Places `p` before the first entry that is not newer than it. */
  function InsertByAge(p: PublicAccount, s: seq<PublicAccount>): (r: seq<PublicAccount>)
    requires NewestFirst(s)
    ensures |r| == |s| + 1
    ensures r[0] == p || (s != [] && r[0] == s[0])
    ensures NewestFirst(r)
    ensures multiset(r) == multiset(s) + multiset{p}
  {
    if s == [] then [p]
    else if p.createdAt >= s[0].createdAt then
      ConsNewestFirst(p, s);
      [p] + s
    else
      var tail := s[1..];
      assert NewestFirst(tail) by {
        forall i, j | 0 <= i < j < |tail| ensures tail[i].createdAt >= tail[j].createdAt {
          assert tail[i] == s[i + 1] && tail[j] == s[j + 1];
        }
      }
      var rest := InsertByAge(p, tail);
      assert tail != [] ==> s[0].createdAt >= tail[0].createdAt by {
        if tail != [] {
          assert tail[0] == s[1];
        }
      }
      ConsNewestFirst(s[0], rest);
      assert s == [s[0]] + tail;
      [s[0]] + rest
  }

  /** `.sort({ createdAt: -1 })`: newest first; equal `createdAt` keep their natural order. */
  function SortNewestFirst(s: seq<PublicAccount>): (r: seq<PublicAccount>)
    ensures NewestFirst(r)
    ensures multiset(r) == multiset(s)
    ensures |r| == |s|
  {
    if s == [] then []
    else
      assert s == [s[0]] + s[1..];
      InsertByAge(s[0], SortNewestFirst(s[1..]))
  }

  /** `.skip(skip).limit(count)`: at most `count` entries, taken in order from offset `skip`. */
  function Page(s: seq<PublicAccount>, skip: nat, count: nat): (r: seq<PublicAccount>)
    ensures |r| <= count
    ensures |r| == if skip >= |s| then 0 else if |s| - skip < count then |s| - skip else count
    ensures forall k :: 0 <= k < |r| ==> r[k] == s[skip + k]
  {
    if skip >= |s| then []
    else s[skip..if |s| - skip < count then |s| else skip + count]
  }

  /** What the listing query returns for a non-negative skip and the absolute limit. */
  function ListUsers(accounts: map<Id, Account>, n: nat, skip: nat, count: nat): seq<PublicAccount> {
    Page(SortNewestFirst(UserRole(accounts, n)), skip, count)
  }

  /**
   * The listed accounts are stored `user`-role accounts (never admins), newest
   * first, at most `count` of them; they are the sorted list from offset `skip`.
   */
  lemma ListUsersShape(accounts: map<Id, Account>, n: nat, skip: nat, count: nat)
    ensures var r := ListUsers(accounts, n, skip, count);
            && |r| <= count
            && NewestFirst(r)
            && (forall k :: 0 <= k < |r| ==> r[k].role == User)
            && (forall k :: 0 <= k < |r| ==> exists id :: id < n && id in accounts && r[k] == ToJson(accounts[id]))
  {
    var ids := UserIdsBelow(accounts, n);
    UserIdsBelowExact(accounts, n);
    var all := UserRole(accounts, n);
    var sorted := SortNewestFirst(all);
    var r := Page(sorted, skip, count);
    forall k | 0 <= k < |r|
      ensures r[k].role == User
      ensures exists id :: id < n && id in accounts && r[k] == ToJson(accounts[id])
    {
      assert r[k] == sorted[skip + k];
      assert sorted[skip + k] in multiset(sorted);
      assert r[k] in multiset(all);
      var i :| 0 <= i < |all| && all[i] == r[k];
      assert ids[i] in UserIds(accounts, n);
      assert r[k] == ToJson(accounts[ids[i]]);
    }
  }

  /** Two adjacent slices make the slice that spans both. */
  lemma PageSplit(s: seq<PublicAccount>, skip: nat, a: nat, b: nat)
    ensures Page(s, skip, a) + Page(s, skip + a, b) == Page(s, skip, a + b)
  {
    var l := Page(s, skip, a);
    var r := Page(s, skip + a, b);
    var w := Page(s, skip, a + b);
    assert |l + r| == |w|;
    forall k | 0 <= k < |w| ensures (l + r)[k] == w[k] {
      if k >= |l| {
        assert (l + r)[k] == r[k - |l|];
      }
    }
  }

  /** Pages 1 to `pages` of `s` with a fixed limit, one after the other. */
  function Pages(s: seq<PublicAccount>, limit: nat, pages: nat): seq<PublicAccount> {
    if pages == 0 then [] else Pages(s, limit, pages - 1) + Page(s, (pages - 1) * limit, limit)
  }

  /** The first `pages` pages are `s` cut after `pages * limit` entries. */
  lemma {:induction false} PagesPrefix(s: seq<PublicAccount>, limit: nat, pages: nat)
    ensures Pages(s, limit, pages) == Page(s, 0, pages * limit)
  {
    if pages > 0 {
      var m := (pages - 1) * limit;
      PagesPrefix(s, limit, pages - 1);
      PageSplit(s, 0, m, limit);
      assert m + limit == pages * limit;
    }
  }

  /**
   * With a positive limit, the listing's pages 1 to `totalPages` (page `p`
   * is the listing at offset `(p - 1) * limit`), one after the other, hold
   * every `user`-role account exactly once, newest first.
   */
  lemma PagesCoverUsers(accounts: map<Id, Account>, n: nat, limit: nat)
    requires limit > 0
    ensures var total := |UserIds(accounts, n)|;
            var sorted := SortNewestFirst(UserRole(accounts, n));
            Pages(sorted, limit, CeilDiv(total, limit)) == sorted
  {
    var total := |UserIds(accounts, n)|;
    var sorted := SortNewestFirst(UserRole(accounts, n));
    UserIdsCount(accounts, n);
    assert |sorted| == total;
    PageCountCoversUsers(total, limit);
    var pages := CeilDiv(total, limit);
    var c := pages * limit;
    assert c >= |sorted|;
    PagesPrefix(sorted, limit, pages);
    assert Page(sorted, 0, c) == sorted[0..|sorted|];
  }
}
