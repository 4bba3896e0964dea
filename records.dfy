/** The customer records the component shows, and the list operations it
    applies to them. */
module Records {
  import opened Form

  /** The identifier the backend assigns to a record. */
  type Id = int

  /** A record as the backend returns it: its id, the five form fields, and
      whatever other properties it carries (kept by name). */
  datatype Record = Record(id: Id, name: string, username: string, email: string,
                           phone: string, balance: string, other: map<string, string>)
  {
    /** The five values the edit form is filled with. */
    function Fields(): Draft
    {
      Draft(name, username, email, phone, balance)
    }
  }

  /** The record `{ ...p, name, username, email, phone, balance }`: `p` with
      the five form fields taken from `d`. */
  function WithDraft(p: Record, d: Draft): (r: Record)
    ensures r.id == p.id && r.other == p.other
    ensures r.Fields() == d
  {
    p.(name := d.name, username := d.username, email := d.email, phone := d.phone, balance := d.balance)
  }

  /** `[...posts, r]`: the list with one more record at its end. */
  function Appended(posts: seq<Record>, r: Record): (s: seq<Record>)
    ensures |s| == |posts| + 1
    ensures s[..|posts|] == posts && s[|posts|] == r
    ensures forall x :: x in s <==> x in posts || x == r
  {
    posts + [r]
  }

  /** Some record of the list has the identifier `id`. */
  predicate HasId(posts: seq<Record>, id: Id)
  {
    exists i :: 0 <= i < |posts| && posts[i].id == id
  }

  /** `posts.filter((post) => post.id !== id)`. */
  function WithoutId(posts: seq<Record>, id: Id): (s: seq<Record>)
    ensures |s| <= |posts|
    ensures forall x :: x in s <==> x in posts && x.id != id
  {
    if posts == [] then []
    else if posts[0].id != id then [posts[0]] + WithoutId(posts[1..], id)
    else WithoutId(posts[1..], id)
  }

  /** Filtering does not reorder: it works piece by piece. */
  lemma {:induction false} WithoutIdConcat(a: seq<Record>, b: seq<Record>, id: Id)
    ensures WithoutId(a + b, id) == WithoutId(a, id) + WithoutId(b, id)
  {
    if a == [] {
      assert a + b == b;
    } else {
      assert (a + b)[1..] == a[1..] + b;
      WithoutIdConcat(a[1..], b, id);
    }
  }

  /** No record of the result carries `id`. */
  lemma WithoutIdRemovesAll(posts: seq<Record>, id: Id)
    ensures !HasId(WithoutId(posts, id), id)
  {
    var s := WithoutId(posts, id);
    forall i | 0 <= i < |s|
      ensures s[i].id != id
    {
      assert s[i] in s;
    }
  }

  /** A list with no record carrying `id` is left as it is. */
  lemma {:induction false} WithoutIdAbsent(posts: seq<Record>, id: Id)
    requires !HasId(posts, id)
    ensures WithoutId(posts, id) == posts
  {
    if posts != [] {
      assert posts[0].id != id;
      WithoutIdAbsent(posts[1..], id);
      assert posts == [posts[0]] + posts[1..];
    }
  }

  /** The list shrinks exactly when some record carries `id`. */
  lemma {:induction false} WithoutIdShrinks(posts: seq<Record>, id: Id)
    ensures |WithoutId(posts, id)| < |posts| <==> HasId(posts, id)
  {
    if posts == [] {
    } else if posts[0].id == id {
      assert HasId(posts, id);
    } else {
      WithoutIdShrinks(posts[1..], id);
      if HasId(posts[1..], id) {
        var i :| 0 <= i < |posts[1..]| && posts[1..][i].id == id;
        assert posts[i + 1].id == id;
      }
      if HasId(posts, id) {
        var i :| 0 <= i < |posts| && posts[i].id == id;
        assert i != 0;
        assert posts[1..][i - 1].id == id;
      }
    }
  }

  /** Every record with a different id keeps all its occurrences. */
  lemma {:induction false} WithoutIdKeepsOthers(posts: seq<Record>, id: Id, r: Record)
    requires r.id != id
    ensures multiset(WithoutId(posts, id))[r] == multiset(posts)[r]
  {
    if posts != [] {
      WithoutIdKeepsOthers(posts[1..], id, r);
      assert posts == [posts[0]] + posts[1..];
    }
  }

  /** Deleting twice is deleting once. */
  lemma WithoutIdIdempotent(posts: seq<Record>, id: Id)
    ensures WithoutId(WithoutId(posts, id), id) == WithoutId(posts, id)
  {
    WithoutIdRemovesAll(posts, id);
    WithoutIdAbsent(WithoutId(posts, id), id);
  }

  /** Deleting the id of a record just appended takes away that record and
      every older one with the same id, and nothing else. */
  lemma DeleteAfterAppend(posts: seq<Record>, r: Record)
    ensures WithoutId(Appended(posts, r), r.id) == WithoutId(posts, r.id)
  {
    WithoutIdConcat(posts, [r], r.id);
    assert [r][1..] == [];
  }
}
