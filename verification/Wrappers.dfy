/** Optional values and blank-text handling shared by every component. */
module Wrappers {

  datatype Option<+T> = None | Some(value: T) {

    function GetOr(default: T): T {
      match this
      case Some(v) => v
      case None => default
    }
  }

  function Min(a: int, b: int): int { if a <= b then a else b }

  function Max(a: int, b: int): int { if a >= b then a else b }
}

/** Leading and trailing white space, as the service's text fields treat it. */
module Text {
  import opened Wrappers

  /** The white space JavaScript trims. */
  predicate IsSpace(c: char) {
    var n := c as int;
    || 0x9 <= n <= 0xD || n == 0x20 || n == 0xA0 || n == 0x1680 || 0x2000 <= n <= 0x200A
    || n == 0x2028 || n == 0x2029 || n == 0x202F || n == 0x205F || n == 0x3000 || n == 0xFEFF
  }

  function TrimLeft(s: string): string {
    if s != [] && IsSpace(s[0]) then TrimLeft(s[1..]) else s
  }

  function TrimRight(s: string): string {
    if s != [] && IsSpace(s[|s| - 1]) then TrimRight(s[..|s| - 1]) else s
  }

  function Trim(s: string): string { TrimRight(TrimLeft(s)) }

  predicate Blank(s: string) { Trim(s) == "" }

  /** No value and a blank value are the same thing: no value. */
  function Normalize(v: Option<string>): Option<string> {
    if v.None? || Blank(v.value) then None else Some(Trim(v.value))
  }

  lemma {:induction false} TrimRightKeepsHead(s: string)
    requires s != [] && !IsSpace(s[0])
    ensures TrimRight(s) != [] && TrimRight(s)[0] == s[0]
    decreases |s|
  {
    if IsSpace(s[|s| - 1]) {
      TrimRightKeepsHead(s[..|s| - 1]);
    }
  }

  lemma {:induction false} TrimLeftHead(s: string)
    ensures TrimLeft(s) != [] ==> !IsSpace(TrimLeft(s)[0])
    decreases |s|
  {
    if s != [] && IsSpace(s[0]) {
      TrimLeftHead(s[1..]);
    }
  }

  lemma {:induction false} TrimRightTail(s: string)
    ensures TrimRight(s) != [] ==> !IsSpace(TrimRight(s)[|TrimRight(s)| - 1])
    decreases |s|
  {
    if s != [] && IsSpace(s[|s| - 1]) {
      TrimRightTail(s[..|s| - 1]);
    }
  }

  ghost predicate AllSpace(s: string) { forall i :: 0 <= i < |s| ==> IsSpace(s[i]) }

  lemma {:induction false} TrimLeftCut(s: string) returns (a: nat)
    ensures a <= |s| && TrimLeft(s) == s[a..] && AllSpace(s[..a])
    decreases |s|
  {
    if s != [] && IsSpace(s[0]) {
      var rest := TrimLeftCut(s[1..]);
      a := rest + 1;
      assert s[..a] == [s[0]] + s[1..][..rest];
    } else {
      a := 0;
    }
  }

  lemma {:induction false} TrimRightCut(s: string) returns (b: nat)
    ensures b <= |s| && TrimRight(s) == s[..b] && AllSpace(s[b..])
    decreases |s|
  {
    if s != [] && IsSpace(s[|s| - 1]) {
      b := TrimRightCut(s[..|s| - 1]);
      assert s[b..] == s[..|s| - 1][b..] + [s[|s| - 1]];
    } else {
      b := |s|;
    }
  }

  /** The kept part runs from the first character that is no space to the last. */
  ghost predicate Kept(s: string, a: nat, b: nat, r: string) {
    && a < b <= |s| && r == s[a..b] && AllSpace(s[..a]) && AllSpace(s[b..]) && !IsSpace(s[a]) && !IsSpace(s[b - 1])
  }

  /** A value of nothing but white space is no value; of any other what lies between its first and last other character is kept. */
  lemma NormalizeIs(v: Option<string>)
    ensures Normalize(v).None? <==> v.None? || AllSpace(v.value)
    ensures v.Some? ==> (Blank(v.value) <==> AllSpace(v.value))
    ensures Normalize(v).Some? ==> exists a: nat, b: nat :: Kept(v.value, a, b, Normalize(v).value)
  {
    if v.Some? {
      var s := v.value;
      var a := TrimLeftCut(s);
      var left := s[a..];
      TrimLeftHead(s);
      var n := TrimRightCut(left);
      if left == [] {
        assert s[..a] == s;
      } else {
        TrimRightKeepsHead(left);
        TrimRightTail(left);
        assert Trim(s) == left[..n] == s[a..a + n];
        assert s[a + n..] == left[n..];
        assert Kept(s, a, a + n, Trim(s));
      }
    }
  }

  /** A normalised value is its own normal form. */
  lemma NormalizeIdempotent(v: Option<string>)
    ensures Normalize(Normalize(v)) == Normalize(v)
  {
    if v.Some? && !Blank(v.value) {
      var left := TrimLeft(v.value);
      TrimLeftHead(v.value);
      assert left != [];
      TrimRightKeepsHead(left);
      TrimRightTail(left);
      assert TrimLeft(Trim(v.value)) == Trim(v.value);
    }
  }
}

/** The workflow states of a work item, by type. */
module WorkflowStates {

  datatype StateType = Backlog | Unstarted | Started | Review | Completed | Canceled

  predicate Closes(t: StateType) { t.Completed? || t.Canceled? }
}
