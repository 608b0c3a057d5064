/**
 * Parallel kernels as unordered sets of stores. A launch may issue its stores in any order, and more than
 * once; when stores to one address always carry one value, every order leaves the same memory.
 */
module Stores {

  datatype Store<T> = Store(addr: nat, value: T)

  function Apply<T>(mem: seq<T>, ss: seq<Store<T>>): (r: seq<T>)
    ensures |r| == |mem|
    decreases |ss|
  {
    if ss == [] then mem
    else
      var s := ss[0];
      Apply(if s.addr < |mem| then mem[s.addr := s.value] else mem, ss[1..])
  }

  /** What a schedule leaves at an address that it stores `v` to, and only `v`. */
  lemma {:induction false} StoredValue<T>(mem: seq<T>, ss: seq<Store<T>>, a: nat, v: T)
    requires a < |mem|
    requires forall i :: 0 <= i < |ss| && ss[i].addr == a ==> ss[i].value == v
    requires mem[a] == v || exists i :: 0 <= i < |ss| && ss[i].addr == a
    ensures Apply(mem, ss)[a] == v
    decreases |ss|
  {
    if ss != [] {
      var s := ss[0];
      var mem' := if s.addr < |mem| then mem[s.addr := s.value] else mem;
      if mem'[a] != v {
        var i :| 0 <= i < |ss| && ss[i].addr == a;
        assert ss[1..][i - 1] == ss[i];
      }
      StoredValue(mem', ss[1..], a, v);
    }
  }

  lemma {:induction false} UnstoredValue<T>(mem: seq<T>, ss: seq<Store<T>>, a: nat)
    requires a < |mem|
    requires forall i :: 0 <= i < |ss| ==> ss[i].addr != a
    ensures Apply(mem, ss)[a] == mem[a]
    decreases |ss|
  {
    if ss != [] {
      var s := ss[0];
      UnstoredValue(if s.addr < |mem| then mem[s.addr := s.value] else mem, ss[1..], a);
    }
  }

  /** Memory after a run of values was stored from an address on. */
  function Patched<T>(mem: seq<T>, at: nat, values: seq<T>): (r: seq<T>)
    requires at + |values| <= |mem|
    ensures |r| == |mem|
  {
    mem[..at] + values + mem[at + |values|..]
  }

  /** A run stored right behind another is part of it. */
  lemma PatchedMore<T>(mem: seq<T>, at: nat, values: seq<T>, more: seq<T>)
    requires at + |values| + |more| <= |mem|
    ensures Patched(Patched(mem, at, values), at + |values|, more) == Patched(mem, at, values + more)
  {
  }

  method CopyIn<T>(mem: array<T>, at: nat, values: seq<T>)
    requires at + |values| <= mem.Length
    modifies mem
    ensures mem[..] == Patched(old(mem[..]), at, values)
  {
    forall i | 0 <= i < |values| { mem[at + i] := values[i]; }
  }
}
