/** Sequences as specifications of linked lists and arrays of pointers. */
module Lists {
  import opened Common

  /** `s` without element `i`. */
  function CutOut<T>(s: seq<T>, i: nat): (r: seq<T>)
    requires i < |s|
    ensures |r| == |s| - 1
    ensures forall k :: 0 <= k < i ==> r[k] == s[k]
    ensures forall k :: i <= k < |r| ==> r[k] == s[k + 1]
    ensures r == s[..i] + s[i + 1..]
  {
    s[..i] + s[i + 1..]
  }

  lemma CutOutMembers<T>(s: seq<T>, i: nat)
    requires i < |s| && Distinct(s)
    ensures Distinct(CutOut(s, i))
    ensures forall x :: x in CutOut(s, i) <==> x in s && x != s[i]
  {
    forall x | x in s && x != s[i]
      ensures x in CutOut(s, i)
    {
      var k :| 0 <= k < |s| && s[k] == x;
      assert CutOut(s, i)[if k < i then k else k - 1] == x;
    }
  }

  /** All elements but the last. */
  function Init<T>(s: seq<T>): seq<T> {
    if s == [] then [] else s[..|s| - 1]
  }

  ghost function Members<T>(s: seq<T>): set<T> {
    set x | x in s
  }

  lemma MembersCut<T>(s: seq<T>, i: nat)
    requires i < |s| && Distinct(s)
    ensures Distinct(CutOut(s, i)) && Members(CutOut(s, i)) == Members(s) - {s[i]}
  {
    CutOutMembers(s, i);
  }

  lemma MembersAppend<T>(s: seq<T>, x: T)
    ensures Members(s + [x]) == Members(s) + {x}
    ensures Distinct(s) && x !in s ==> Distinct(s + [x])
  {
  }

  lemma MembersPrepend<T>(s: seq<T>, x: T)
    ensures Members([x] + s) == Members(s) + {x}
    ensures Distinct(s) && x !in s ==> Distinct([x] + s)
  {
  }

  /** `s` without its first `x`: a search with a trailing pointer, as a function. */
  function Without<T(==)>(s: seq<T>, x: T): (r: seq<T>) {
    if s == [] then []
    else if s[0] == x then s[1..]
    else [s[0]] + Without(s[1..], x)
  }

  lemma {:induction false} WithoutFacts<T>(s: seq<T>, x: T)
    requires Distinct(s)
    ensures var r := Without(s, x);
            && Distinct(r) && x !in r
            && (forall y :: y != x ==> (y in r <==> y in s))
            && |r| == if x in s then |s| - 1 else |s|
  {
    if s != [] {
      assert s[0] !in s[1..];
      if s[0] != x {
        WithoutFacts(s[1..], x);
      }
    }
  }

  /** Removal takes out one element and keeps the order of the others. */
  lemma {:induction false} WithoutAt<T>(s: seq<T>, i: nat)
    requires Distinct(s) && i < |s|
    ensures Without(s, s[i]) == s[..i] + s[i + 1..]
  {
    if i > 0 {
      var rest := s[1..];
      assert s[0] != s[i] && rest[i - 1] == s[i] && Distinct(rest);
      WithoutAt(rest, i - 1);
      hide Distinct;
      Prepended(s, i);
    }
  }

  lemma Prepended<T>(s: seq<T>, i: nat)
    requires 0 < i < |s|
    ensures [s[0]] + (s[1..][..i - 1] + s[1..][i..]) == s[..i] + s[i + 1..]
  {
    assert s[1..][i..] == s[i + 1..];
    assert [s[0]] + s[1..][..i - 1] == s[..i];
  }

  lemma {:induction false} WithoutAbsent<T>(s: seq<T>, x: T)
    requires x !in s
    ensures Without(s, x) == s
  {
    if s != [] {
      WithoutAbsent(s[1..], x);
    }
  }

  /** The order of the screens after one switch, and after `k` switches. */
  function Turn<T>(s: seq<T>): seq<T> {
    if |s| < 2 then s else s[1..] + [s[0]]
  }

  function Turns<T>(s: seq<T>, k: nat): seq<T> {
    if k == 0 then s else Turn(Turns(s, k - 1))
  }

  /** Switching cycles: after `k` switches screen `k` is focused and the order is otherwise kept; after
      as many switches as there are screens the list is as it was, each screen having been
      focused once. */
  lemma {:induction false} SwitchingCycles<T>(s: seq<T>, k: nat)
    requires k <= |s|
    ensures Turns(s, k) == s[k..] + s[..k]
    ensures k < |s| ==> Turns(s, k)[0] == s[k]
    ensures Turns(s, |s|) == s
  {
    TurnsPrefix(s, k);
    TurnsPrefix(s, |s|);
  }

  lemma {:induction false} TurnsPrefix<T>(s: seq<T>, k: nat)
    requires k <= |s|
    ensures Turns(s, k) == s[k..] + s[..k]
    decreases k
  {
    if k > 0 {
      TurnsPrefix(s, k - 1);
      var t := Turns(s, k - 1);
      if |s| >= 2 {
        assert t[0] == s[k - 1] && t[1..] == s[k..] + s[..k - 1];
      }
    }
  }
}
