/**
 * Scopes: a chain of frames, nearest first and the root last, plus the
 * function table of the root context.  A frame maps names to values; a
 * name present with value `Nil` is bound (lookup uses `containsKey`).
 */
module Scope {
  import opened Wrappers
  import opened Ast
  import opened Values

  type Frame = map<string, Value>

  /** A context and its ancestors, the current frame first and the root last. */
  type Chain = c: seq<Frame> | |c| > 0 witness [map[]]

  type FunctionTable = map<string, FunctionDecl>

  /** `getRootContext`: the ancestor without a parent. */
  function Root(c: Chain): Frame {
    c[|c| - 1]
  }

  /** Whether `k` is the nearest frame of `c` binding `n`. */
  predicate NearestBinder(c: seq<Frame>, n: string, k: int) {
    0 <= k < |c| && n in c[k] && forall j :: 0 <= j < k ==> n !in c[j]
  }

  /** `getVariable`: the binding in the nearest frame that has one, else `Nil`. */
  function GetVariable(c: seq<Frame>, n: string): (v: Value)
    ensures (forall k :: 0 <= k < |c| ==> n !in c[k]) ==> v == Nil
    ensures forall k :: NearestBinder(c, n, k) ==> v == c[k][n]
  {
    if c == [] then Nil
    else if n in c[0] then c[0][n]
    else
      NearestBinderShift(c, n);
      GetVariable(c[1..], n)
  }

  /** Past a current frame that does not bind `n`, the nearest binder is
      the parents' nearest binder, one frame further out. */
  lemma NearestBinderShift(c: seq<Frame>, n: string)
    requires c != [] && n !in c[0]
    ensures forall k :: 1 <= k < |c| ==> NearestBinder(c, n, k) == NearestBinder(c[1..], n, k - 1)
  {
    forall k | 1 <= k < |c|
      ensures NearestBinder(c, n, k) == NearestBinder(c[1..], n, k - 1)
    {
      if NearestBinder(c[1..], n, k - 1) {
        forall j | 0 <= j < k
          ensures n !in c[j]
        {
          if j > 0 { assert c[j] == c[1..][j - 1]; }
        }
      }
    }
  }

  /** `hasVariable` (and `hasVariableLocally`): the current frame only. */
  predicate HasVariable(c: Chain, n: string)
  {
    n in c[0]
  }

  /** `setVariable`: bind in the current frame. */
  function SetVariable(c: Chain, n: string, v: Value): (r: Chain)
    ensures |r| == |c| && r[1..] == c[1..]
    ensures r[0] == c[0][n := v]
    ensures GetVariable(r, n) == v
    ensures forall m :: m != n ==> GetVariable(r, m) == GetVariable(c, m)
  {
    var r := c[0 := c[0][n := v]];
    assert NearestBinder(r, n, 0);
    assert r[1..] == c[1..];
    r
  }

  /** `getRootContext().setVariable`: bind in the root frame. */
  function SetRootVariable(c: Chain, n: string, v: Value): (r: Chain)
    ensures |r| == |c| && r[..|r| - 1] == c[..|c| - 1]
    ensures Root(r) == Root(c)[n := v]
  {
    c[|c| - 1 := Root(c)[n := v]]
  }

  /** The chain with its root frame replaced, the current frames kept. */
  function WithRoot(c: Chain, root: Frame): (r: Chain)
    ensures |r| == |c| && r[..|r| - 1] == c[..|c| - 1] && Root(r) == root
  {
    c[|c| - 1 := root]
  }

  /** `registerFunction`: a later declaration replaces an earlier one. */
  function RegisterFunction(t: FunctionTable, d: FunctionDecl): (r: FunctionTable)
    ensures GetFunction(r, d.name) == Some(d)
    ensures forall n :: n != d.name ==> GetFunction(r, n) == GetFunction(t, n)
  {
    t[d.name := d]
  }

  /** `getFunction`: the latest declaration, or absent. */
  function GetFunction(t: FunctionTable, n: string): (r: Option<FunctionDecl>)
    ensures r.None? <==> n !in t
    ensures r.Some? ==> r.value == t[n]
  {
    if n in t then Some(t[n]) else None
  }

  /** `hasVariable` decides where lookup stops: with a binding in the
      current frame, lookup finds that one; without, it goes on in the
      parent frames. */
  lemma HasVariableDecidesLookup(c: Chain, n: string)
    ensures HasVariable(c, n) ==> NearestBinder(c, n, 0) && GetVariable(c, n) == c[0][n]
    ensures !HasVariable(c, n) ==> GetVariable(c, n) == GetVariable(c[1..], n)
  {
  }

  /** A name bound to `null` in the current frame hides a parent's binding. */
  lemma NilBindingShadows(c: Chain, n: string)
    requires n in c[0] && c[0][n] == Nil
    ensures GetVariable(c, n) == Nil
  {
    assert NearestBinder(c, n, 0);
  }

  /** A function frame hangs off the root, so it sees its own bindings and
      the root's, and nothing of whoever called it. */
  lemma FunctionFrameSees(local: Frame, root: Frame, n: string)
    ensures GetVariable([local, root], n) ==
              if n in local then local[n] else if n in root then root[n] else Nil
  {
    if n !in local && n in root {
      assert NearestBinder([local, root], n, 1);
    }
  }
}
