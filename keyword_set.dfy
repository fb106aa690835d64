/**
 * A JavaScript `Set<string>` as the core uses it: iteration follows insertion
 * order, so a set is a duplicate-free sequence and `add` appends a name it does
 * not hold yet.
 */
module KeywordSet {

  /** No name occurs twice: each is absent from the names before it. */
  ghost predicate NoDup(s: seq<string>)
    decreases |s|
  {
    s == [] || (s[|s| - 1] !in s[..|s| - 1] && NoDup(s[..|s| - 1]))
  }

  /** `set.add(k)`. */
  function Add(s: seq<string>, k: string): (r: seq<string>)
    ensures forall x :: x in r <==> x in s || x == k
    ensures |s| <= |r| && r[..|s|] == s
    ensures |r| > |s| <==> k !in s
    ensures NoDup(s) ==> NoDup(r)
  {
    if k in s then s else
      assert (s + [k])[..|s|] == s;
      s + [k]
  }

  /** The set after `for (const key of t) s.add(key)`. */
  function AddAll(s: seq<string>, t: seq<string>): (r: seq<string>)
    ensures forall x :: x in r <==> x in s || x in t
    ensures |s| <= |r| && r[..|s|] == s
    ensures NoDup(s) ==> NoDup(r)
    decreases |t|
  {
    if t == [] then s
    else
      var prev := AddAll(s, t[..|t| - 1]);
      assert forall x :: x in t <==> x in t[..|t| - 1] || x == t[|t| - 1] by {
        assert t == t[..|t| - 1] + [t[|t| - 1]];
      }
      Add(prev, t[|t| - 1])
  }

  /** The add loop: one `add` per element of `t`, in order. */
  method AddEach(s: seq<string>, t: seq<string>) returns (r: seq<string>)
    ensures r == AddAll(s, t)
  {
    r := s;
    for i := 0 to |t|
      invariant r == AddAll(s, t[..i])
    {
      assert t[..i + 1][..i] == t[..i];
      r := Add(r, t[i]);
    }
    assert t[..|t|] == t;
  }

  /** The size comparison of the hot-update path: the set grew exactly when `t` held a name `s` lacked. */
  lemma {:induction false} AddAllGrows(s: seq<string>, t: seq<string>)
    ensures |AddAll(s, t)| > |s| <==> exists x :: x in t && x !in s
    decreases |t|
  {
    if t != [] {
      var init, last := t[..|t| - 1], t[|t| - 1];
      assert t == init + [last];
      AddAllGrows(s, init);
      var prev := AddAll(s, init);
      if exists x :: x in t && x !in s {
        var x :| x in t && x !in s;
        if x !in init {
          assert x == last && last !in prev;
        }
      }
    }
  }

  /** A union no longer than the set it started from is that set: only appending can add length. */
  lemma AddAllSameSize(s: seq<string>, t: seq<string>)
    requires |AddAll(s, t)| <= |s|
    ensures AddAll(s, t) == s
  {
    var r := AddAll(s, t);
    assert r == r[..|s|];
  }

  /** Adding names the set already holds changes nothing, so a repeated update is a no-op. */
  lemma {:induction false} AddAllAbsorbs(s: seq<string>, t: seq<string>)
    requires forall x :: x in t ==> x in s
    ensures AddAll(s, t) == s
    decreases |t|
  {
    if t != [] {
      assert forall x :: x in t[..|t| - 1] ==> x in t;
      AddAllAbsorbs(s, t[..|t| - 1]);
      assert t[|t| - 1] in t;
    }
  }

  /** Adding a duplicate-free `t` to the empty set gives `t` itself. */
  lemma {:induction false} AddAllToEmpty(t: seq<string>)
    requires NoDup(t)
    ensures AddAll([], t) == t
    decreases |t|
  {
    if t != [] {
      var init := t[..|t| - 1];
      assert NoDup(init);
      AddAllToEmpty(init);
      assert t[|t| - 1] !in init;
      assert t == init + [t[|t| - 1]];
    }
  }

  /** Adding a one-name sequence is a single `add`. */
  lemma AddAllSingle(s: seq<string>, x: string)
    ensures AddAll(s, [x]) == Add(s, x)
  {
    assert [x][..0] == [];
  }

  /** The union, in order, of the sets `parts`: each part added in turn to the empty set. */
  function UniteAll(parts: seq<seq<string>>): (r: seq<string>)
    ensures NoDup(r)
    decreases |parts|
  {
    if parts == [] then []
    else AddAll(UniteAll(parts[..|parts| - 1]), parts[|parts| - 1])
  }

  /** Every name of the union comes from some part. */
  lemma {:induction false} UniteAllSound(parts: seq<seq<string>>, k: string) returns (i: nat)
    requires k in UniteAll(parts)
    ensures i < |parts| && k in parts[i]
    decreases |parts|
  {
    var n := |parts| - 1;
    if k in parts[n] {
      i := n;
    } else {
      i := UniteAllSound(parts[..n], k);
    }
  }

  /** Every name of every part is in the union. */
  lemma {:induction false} UniteAllComplete(parts: seq<seq<string>>, i: nat, k: string)
    requires i < |parts| && k in parts[i]
    ensures k in UniteAll(parts)
    decreases |parts|
  {
    var n := |parts| - 1;
    if i < n {
      UniteAllComplete(parts[..n], i, k);
    }
  }

  /** The union holds exactly the names of the parts. */
  lemma UniteAllMembers(parts: seq<seq<string>>, k: string)
    ensures k in UniteAll(parts) <==> exists i :: 0 <= i < |parts| && k in parts[i]
  {
    if k in UniteAll(parts) {
      var i := UniteAllSound(parts, k);
    }
    if exists i :: 0 <= i < |parts| && k in parts[i] {
      var i :| 0 <= i < |parts| && k in parts[i];
      UniteAllComplete(parts, i, k);
    }
  }
}
