/**
 * A JavaScript `Set` of listeners: a sequence without duplicates, in insertion order,
 * which is the order `forEach` visits it in. Listeners are opaque identifiers: two
 * listeners are the same exactly when the source's `===` would say so.
 */
module ListenerSets {

  type Listener = nat

  /** An argument list handed to every listener of a notification. */
  datatype Invocation<A> = Invocation(listener: Listener, args: A)

  predicate NoDuplicates(s: seq<Listener>) {
    forall i, j :: 0 <= i < j < |s| ==> s[i] != s[j]
  }

  /** `Set.prototype.add`: a new listener goes last; one already present stays where it is. */
  function Insert(s: seq<Listener>, l: Listener): (r: seq<Listener>)
    ensures forall x :: x in r <==> x in s || x == l
    ensures NoDuplicates(s) ==> NoDuplicates(r)
    ensures |s| <= |r| && r[..|s|] == s
  {
    if l in s then s else s + [l]
  }

  /** `Set.prototype.delete`: the listener goes; the others keep their order. */
  function Delete(s: seq<Listener>, l: Listener): (r: seq<Listener>)
    ensures forall x :: x in r <==> x in s && x != l
    ensures NoDuplicates(s) ==> NoDuplicates(r)
    ensures l !in s ==> r == s
    decreases |s|
  {
    if |s| == 0 then []
    else
      var init := Delete(s[..|s| - 1], l);
      assert s == s[..|s| - 1] + [s[|s| - 1]];
      assert NoDuplicates(s) ==> s[|s| - 1] !in s[..|s| - 1] && NoDuplicates(s[..|s| - 1]);
      if s[|s| - 1] == l then init else init + [s[|s| - 1]]
  }

  /** Adding twice is adding once. */
  lemma InsertIdempotent(s: seq<Listener>, l: Listener)
    ensures Insert(Insert(s, l), l) == Insert(s, l)
  {
  }

  /** Deleting a listener that was just added, and was not there before, gives back the set. */
  lemma {:induction false} DeleteUndoesInsert(s: seq<Listener>, l: Listener)
    requires l !in s
    ensures Delete(Insert(s, l), l) == s
  {
    var t := s + [l];
    assert t[..|t| - 1] == s;
  }

  /** Deleting keeps the listeners that stay in the order they were added. */
  lemma {:induction false} DeleteKeepsOrder(s: seq<Listener>, l: Listener, i: nat, j: nat)
    requires NoDuplicates(s)
    requires i < j < |s| && s[i] != l && s[j] != l
    ensures exists a, b :: 0 <= a < b < |Delete(s, l)| && Delete(s, l)[a] == s[i] && Delete(s, l)[b] == s[j]
    decreases |s|
  {
    var init := s[..|s| - 1];
    if j < |s| - 1 {
      DeleteKeepsOrder(init, l, i, j);
      var a, b :| 0 <= a < b < |Delete(init, l)| && Delete(init, l)[a] == init[i] && Delete(init, l)[b] == init[j];
      assert Delete(s, l)[a] == s[i] && Delete(s, l)[b] == s[j];
    } else {
      assert init[i] == s[i];
      assert s[i] in Delete(init, l);
      var a :| 0 <= a < |Delete(init, l)| && Delete(init, l)[a] == s[i];
      var d := Delete(init, l) + [s[j]];
      assert Delete(s, l) == d;
      assert d[a] == s[i] && d[|d| - 1] == s[j];
    }
  }

  /**
   * The invocations of a notification: each listener of the set once, in insertion order,
   * each with the same arguments.
   */
  function Notified<A>(s: seq<Listener>, args: A): (calls: seq<Invocation<A>>)
    ensures |calls| == |s|
    ensures forall i :: 0 <= i < |s| ==> calls[i] == Invocation(s[i], args)
    decreases |s|
  {
    if |s| == 0 then [] else Notified(s[..|s| - 1], args) + [Invocation(s[|s| - 1], args)]
  }
}
