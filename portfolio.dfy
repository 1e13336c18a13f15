/**
 * The portfolio page: the repository list fetched once on mount, sorted by
 * `updated_at`, newest first, in place, and the card each repository renders.
 * The fetch itself is outside the model; its outcome is a parameter.
 * Timestamps are integers (milliseconds since the epoch, what
 * `new Date(updated_at)` yields for a valid date).
 */
module Portfolio {
  import opened Wrappers

  /** A repository record of the listing response (the fields the page reads). */
  datatype Repo = Repo(
    id: int,
    name: string,
    description: Option<string>,
    htmlUrl: string,
    homepage: Option<string>,
    updatedAt: int)

  // ---------------------------------------------------------------------------
  // The ordering: a stable sort, newest first

  /** Non-increasing by `updatedAt`: each repository is at least as recent as the next. */
  ghost predicate SortedDesc(s: seq<Repo>)
  {
    |s| <= 1 || (s[0].updatedAt >= s[1].updatedAt && SortedDesc(s[1..]))
  }

  /** In a sorted sequence every repository is at least as recent as every later one. */
  lemma {:induction false} SortedDescPairwise(s: seq<Repo>)
    requires SortedDesc(s)
    ensures forall i, j :: 0 <= i < j < |s| ==> s[i].updatedAt >= s[j].updatedAt
  {
    if |s| > 1 {
      SortedDescPairwise(s[1..]);
      forall i, j | 0 <= i < j < |s| ensures s[i].updatedAt >= s[j].updatedAt {
        assert s[j] == s[1..][j - 1];
        if i > 0 {
          assert s[i] == s[1..][i - 1];
        } else if j > 1 {
          assert s[1] == s[1..][0];
        }
      }
    }
  }

  /**
   * Places `x` after every element of `s` at least as recent as it. On a
   * sorted `s` that is after all its ties: a later element never overtakes
   * an earlier one with the same timestamp.
   */
  function Insert(s: seq<Repo>, x: Repo): seq<Repo>
  {
    if s == [] then [x]
    else if s[0].updatedAt >= x.updatedAt then [s[0]] + Insert(s[1..], x)
    else [x] + s
  }

  /**
   * The order `data.sort((a, b) => new Date(b.updated_at) - new Date(a.updated_at))`
   * leaves: each element, in response order, inserted into the sorted prefix.
   */
  function SortDesc(s: seq<Repo>): seq<Repo>
  {
    if s == [] then [] else Insert(SortDesc(s[..|s| - 1]), s[|s| - 1])
  }

  /** The elements of `s` updated at time `t`, in their order. */
  function WithTime(s: seq<Repo>, t: int): seq<Repo>
  {
    if s == [] then []
    else (if s[0].updatedAt == t then [s[0]] else []) + WithTime(s[1..], t)
  }

  lemma {:induction false} WithTimeAppend(a: seq<Repo>, b: seq<Repo>, t: int)
    ensures WithTime(a + b, t) == WithTime(a, t) + WithTime(b, t)
  {
    if a == [] {
      assert a + b == b;
    } else {
      var head := if a[0].updatedAt == t then [a[0]] else [];
      assert (a + b)[0] == a[0];
      assert (a + b)[1..] == a[1..] + b;
      WithTimeAppend(a[1..], b, t);
      assert WithTime(a + b, t) == head + WithTime(a[1..] + b, t);
      assert WithTime(a, t) == head + WithTime(a[1..], t);
    }
  }

  /** Inserting adds exactly `x`. */
  lemma {:induction false} InsertPerm(s: seq<Repo>, x: Repo)
    ensures multiset(Insert(s, x)) == multiset(s) + multiset{x}
  {
    if s != [] && s[0].updatedAt >= x.updatedAt {
      InsertPerm(s[1..], x);
      assert s == [s[0]] + s[1..];
    }
  }

  lemma {:induction false} InsertSorted(s: seq<Repo>, x: Repo)
    requires SortedDesc(s)
    ensures SortedDesc(Insert(s, x))
  {
    if s != [] && s[0].updatedAt >= x.updatedAt {
      var r := Insert(s[1..], x);
      InsertSorted(s[1..], x);
      assert r[0] == x || (|s| > 1 && r[0] == s[1]);
      assert Insert(s, x)[1..] == r;
    } else if s != [] {
      assert Insert(s, x)[1..] == s;
    }
  }

  /** No element of a sorted sequence is more recent than its first. */
  lemma {:induction false} NoneNewerThanHead(s: seq<Repo>, t: int)
    requires SortedDesc(s) && s != [] && s[0].updatedAt < t
    ensures WithTime(s, t) == []
  {
    if |s| > 1 {
      NoneNewerThanHead(s[1..], t);
    }
  }

  lemma {:induction false} InsertWithTime(s: seq<Repo>, x: Repo, t: int)
    requires SortedDesc(s)
    ensures WithTime(Insert(s, x), t) == WithTime(s, t) + (if x.updatedAt == t then [x] else [])
  {
    if s == [] {
    } else if s[0].updatedAt >= x.updatedAt {
      InsertWithTime(s[1..], x, t);
      assert ([s[0]] + Insert(s[1..], x))[1..] == Insert(s[1..], x);
    } else {
      assert ([x] + s)[1..] == s;
      if x.updatedAt == t {
        NoneNewerThanHead(s, t);
      }
    }
  }

  /** The sort leaves the sequence non-increasing by `updatedAt`. */
  lemma {:induction false} SortDescSorted(s: seq<Repo>)
    ensures SortedDesc(SortDesc(s))
  {
    if s != [] {
      SortDescSorted(s[..|s| - 1]);
      InsertSorted(SortDesc(s[..|s| - 1]), s[|s| - 1]);
    }
  }

  lemma {:induction false} InsertLength(s: seq<Repo>, x: Repo)
    ensures |Insert(s, x)| == |s| + 1
  {
    if s != [] && s[0].updatedAt >= x.updatedAt {
      InsertLength(s[1..], x);
    }
  }

  /** The sort keeps the length of the response. */
  lemma {:induction false} SortDescLength(s: seq<Repo>)
    ensures |SortDesc(s)| == |s|
  {
    if s != [] {
      SortDescLength(s[..|s| - 1]);
      InsertLength(SortDesc(s[..|s| - 1]), s[|s| - 1]);
    }
  }

  /** The sort is a permutation: the same elements, each as often. */
  lemma {:induction false} SortDescPermutation(s: seq<Repo>)
    ensures multiset(SortDesc(s)) == multiset(s)
  {
    if s != [] {
      var init, last := s[..|s| - 1], s[|s| - 1];
      SortDescPermutation(init);
      InsertPerm(SortDesc(init), last);
      assert s == init + [last];
    }
  }

  /** The sort is stable: the repositories updated at any one time keep their response order. */
  lemma {:induction false} SortDescStable(s: seq<Repo>, t: int)
    ensures WithTime(SortDesc(s), t) == WithTime(s, t)
  {
    if s != [] {
      var init, last := s[..|s| - 1], s[|s| - 1];
      SortDescStable(init, t);
      SortDescSorted(init);
      InsertWithTime(SortDesc(init), last, t);
      assert s == init + [last];
      WithTimeAppend(init, [last], t);
      assert WithTime([last], t) == (if last.updatedAt == t then [last] else []) + WithTime([], t);
    }
  }

  /**
   * On a sorted `s`, inserting `x` puts it at position `j` when everything
   * from `j` on is older than `x` and the element before `j` is not.
   */
  lemma {:induction false} InsertAt(s: seq<Repo>, x: Repo, j: nat)
    requires SortedDesc(s) && j <= |s|
    requires forall k :: j <= k < |s| ==> s[k].updatedAt < x.updatedAt
    requires j > 0 ==> s[j - 1].updatedAt >= x.updatedAt
    ensures Insert(s, x) == s[..j] + [x] + s[j..]
  {
    if j == 0 {
      if s != [] {
        assert s[0].updatedAt < x.updatedAt;
      }
    } else {
      SortedDescPairwise(s);
      assert s[0].updatedAt >= x.updatedAt;
      InsertAt(s[1..], x, j - 1);
      assert s[..j] == [s[0]] + s[1..][..j - 1];
      assert s[j..] == s[1..][j - 1..];
    }
  }

  /** The array contents one pass of the insertion sort leaves: `s` with `x` placed at `j`. */
  lemma ShiftedContents(s: seq<Repo>, x: Repo, j: nat, b: seq<Repo>)
    requires j <= |s| < |b|
    requires forall k :: 0 <= k < j ==> b[k] == s[k]
    requires b[j] == x
    requires forall k :: j < k <= |s| ==> b[k] == s[k - 1]
    ensures b[..|s| + 1] == s[..j] + [x] + s[j..]
  {
  }

  /** One pass of the insertion sort: moves `a[i]` into the sorted prefix `a[..i]`. */
  method InsertInto(a: array<Repo>, i: nat)
    requires i < a.Length && SortedDesc(a[..i])
    modifies a
    ensures a[..i + 1] == Insert(old(a[..i]), old(a[i]))
    ensures a[i + 1..] == old(a[i + 1..])
  {
    ghost var rest := a[i + 1..];
    ghost var s := a[..i];
    var x := a[i];
    var j := i;
    while j > 0 && a[j - 1].updatedAt < x.updatedAt
      invariant 0 <= j <= i
      invariant forall k :: 0 <= k < j ==> a[k] == s[k]
      invariant forall k :: j < k <= i ==> a[k] == s[k - 1]
      invariant forall k :: j <= k < i ==> s[k].updatedAt < x.updatedAt
      invariant a[i + 1..] == rest
    {
      a[j] := a[j - 1];
      j := j - 1;
    }
    a[j] := x;
    ShiftedContents(s, x, j, a[..]);
    InsertAt(s, x, j);
  }

  /** `data.sort(...)`: insertion sort, in place, newest first, ties in their original order. */
  method SortByUpdatedDesc(a: array<Repo>)
    modifies a
    ensures a[..] == SortDesc(old(a[..]))
  {
    ghost var input := a[..];
    var i := 0;
    while i < a.Length
      invariant 0 <= i <= a.Length
      invariant a[..i] == SortDesc(input[..i])
      invariant a[i..] == input[i..]
    {
      SortDescSorted(input[..i]);
      assert a[i] == input[i];
      assert a[i + 1..] == input[i + 1..];
      InsertInto(a, i);
      assert input[..i + 1][..i] == input[..i];
      assert SortDesc(input[..i + 1]) == Insert(SortDesc(input[..i]), input[i]);
      i := i + 1;
    }
    assert input[..a.Length] == input;
  }

  // ---------------------------------------------------------------------------
  // Cards

  const NoDescription: string := "No description provided."

  /** JavaScript truthiness of an optional string: present and not empty. */
  predicate Truthy(s: Option<string>)
  {
    s.Some? && s.value != ""
  }

  /** What one repository card shows. */
  datatype Card = Card(title: string, description: string, repoLink: string, demoLink: Option<string>)

  function CardView(r: Repo): (c: Card)
    ensures c.title == r.name && c.repoLink == r.htmlUrl
    ensures Truthy(r.description) ==> c.description == r.description.value
    ensures !Truthy(r.description) ==> c.description == NoDescription
    ensures c.demoLink.Some? <==> Truthy(r.homepage)
    ensures c.demoLink.Some? ==> c.demoLink.value == r.homepage.value
  {
    Card(r.name,
         if Truthy(r.description) then r.description.value else NoDescription,
         r.htmlUrl,
         if Truthy(r.homepage) then r.homepage else None)
  }

  // ---------------------------------------------------------------------------
  // The page's state

  /** How the one fetch ended: a parsed OK response, a non-OK status, or a thrown exception. */
  datatype LoadOutcome =
    | Loaded(data: seq<Repo>)
    | HttpError(status: int)
    | Exception(message: string)

  const FetchFailedMessage: string := "Failed to fetch repos."

  class PortfolioPage {
    var repos: seq<Repo>
    var loading: bool
    var error: Option<string>

    /** Mount: nothing loaded yet, loading, no error; the one fetch is under way. */
    constructor ()
      ensures repos == [] && loading && error == None
    {
      repos := [];
      loading := true;
      error := None;
    }

    /**
     * The continuation of `fetchRepos` with the outcome of the request. It
     * runs only while the one fetch is outstanding, and leaves `loading`
     * false, so no second completion can follow.
     */
    method ApplyLoadResult(outcome: LoadOutcome)
      requires loading
      modifies this
      ensures !loading
      ensures outcome.Loaded? ==> repos == SortDesc(outcome.data) && error == old(error)
      ensures outcome.Loaded? ==>
        && (forall i, j :: 0 <= i < j < |repos| ==> repos[i].updatedAt >= repos[j].updatedAt)
        && multiset(repos) == multiset(outcome.data) && |repos| == |outcome.data|
        && forall t :: WithTime(repos, t) == WithTime(outcome.data, t)
      ensures outcome.HttpError? ==> repos == old(repos) && error == Some(FetchFailedMessage)
      ensures outcome.Exception? ==> repos == old(repos) && error == Some(outcome.message)
    {
      match outcome {
      case Loaded(data) =>
        var a := new Repo[|data|](i requires 0 <= i < |data| => data[i]);
        assert a[..] == data;
        SortByUpdatedDesc(a);
        repos := a[..];
        SortDescSorted(data);
        SortedDescPairwise(repos);
        SortDescPermutation(data);
        SortDescLength(data);
        forall t ensures WithTime(repos, t) == WithTime(data, t) {
          SortDescStable(data, t);
        }
      case HttpError(_) =>
        error := Some(FetchFailedMessage);
      case Exception(msg) =>
        error := Some(msg);
      }
      loading := false;
    }
  }
}
