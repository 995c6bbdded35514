/**
 * `generateClassName(...classNames)`: keep the arguments that are neither
 * `undefined` nor the empty string, and join them with single spaces.
 */
module StyleUtilities {
  import opened Wrappers

  /** The `filter((value) => value)` test on a `string | undefined`: defined and not "". */
  predicate Truthy(v: Option<string>) {
    v.Some? && v.value != ""
  }

  /** The arguments `filter` keeps, unwrapped, in argument order. */
  function Kept(classNames: seq<Option<string>>): (r: seq<string>)
    ensures |r| <= |classNames|
    ensures forall k :: 0 <= k < |r| ==> r[k] != "" && Some(r[k]) in classNames
    ensures forall k :: 0 <= k < |classNames| && Truthy(classNames[k]) ==> classNames[k].value in r
  {
    if classNames == [] then []
    else if Truthy(classNames[0]) then [classNames[0].value] + Kept(classNames[1..])
    else Kept(classNames[1..])
  }

  /**
   * `Array.prototype.join(" ")`: the parts with one space between neighbours;
   * k >= 1 parts give their total length plus k - 1 spaces.
   */
  function JoinWithSpaces(parts: seq<string>): (r: string)
    ensures parts != [] ==> |r| == SumLengths(parts) + |parts| - 1
  {
    if parts == [] then ""
    else if |parts| == 1 then parts[0]
    else parts[0] + " " + JoinWithSpaces(parts[1..])
  }

  function GenerateClassName(classNames: seq<Option<string>>): (r: string)
    ensures (forall k :: 0 <= k < |classNames| ==> !Truthy(classNames[k])) ==> r == ""
  {
    JoinWithSpaces(Kept(classNames))
  }

  /** The total length of the parts. */
  function SumLengths(parts: seq<string>): nat {
    if parts == [] then 0 else |parts[0]| + SumLengths(parts[1..])
  }

  /** Where part `i` starts in the joined string: the parts before it and one space after each. */
  function Offset(parts: seq<string>, i: nat): nat
    requires i <= |parts|
  {
    SumLengths(parts[..i]) + i
  }

  /** Filtering keeps argument order: the kept arguments of a concatenation are concatenated. */
  lemma {:induction false} KeptAppend(a: seq<Option<string>>, b: seq<Option<string>>)
    ensures Kept(a + b) == Kept(a) + Kept(b)
  {
    if a == [] {
      assert a + b == b;
    } else {
      assert (a + b)[1..] == a[1..] + b;
      KeptAppend(a[1..], b);
    }
  }

  /** With no truthy argument nothing is kept. */
  lemma {:induction false} KeptNone(classNames: seq<Option<string>>)
    requires forall k :: 0 <= k < |classNames| ==> !Truthy(classNames[k])
    ensures Kept(classNames) == []
  {
    if classNames != [] {
      KeptNone(classNames[1..]);
    }
  }

  /**
   * Each part appears at its offset, and all but the last are followed by
   * exactly one space: the parts in order, separated by single spaces.
   */
  lemma {:induction false} JoinLayout(parts: seq<string>, i: nat)
    requires i < |parts|
    ensures Offset(parts, i) + |parts[i]| <= |JoinWithSpaces(parts)|
    ensures i < |parts| - 1 ==> Offset(parts, i) + |parts[i]| < |JoinWithSpaces(parts)|
    ensures JoinWithSpaces(parts)[Offset(parts, i)..Offset(parts, i) + |parts[i]|] == parts[i]
    ensures i < |parts| - 1 ==> JoinWithSpaces(parts)[Offset(parts, i) + |parts[i]|] == ' '
  {
    var r := JoinWithSpaces(parts);
    if i == 0 {
      assert parts[..0] == [];
      if |parts| > 1 {
        assert r == parts[0] + " " + JoinWithSpaces(parts[1..]);
        assert r[..|parts[0]|] == parts[0];
      }
    } else {
      var tail := parts[1..];
      JoinLayout(tail, i - 1);
      OffsetStep(parts, i);
      assert r == parts[0] + " " + JoinWithSpaces(tail);
      assert tail[i - 1] == parts[i];
      SliceAfterHead(parts[0], JoinWithSpaces(tail), Offset(tail, i - 1), Offset(tail, i - 1) + |parts[i]|);
    }
  }

  /** Part `i > 0` starts one part and one space further than part `i - 1` of the tail. */
  lemma OffsetStep(parts: seq<string>, i: nat)
    requires 0 < i <= |parts|
    ensures Offset(parts, i) == |parts[0]| + 1 + Offset(parts[1..], i - 1)
  {
    assert parts[..i] == [parts[0]] + parts[1..][..i - 1];
    assert parts[..i][1..] == parts[1..][..i - 1];
  }

  /** Positions past `head + " "` are positions of `rest`, shifted by the head and the space. */
  lemma SliceAfterHead(head: string, rest: string, a: nat, b: nat)
    requires a <= b <= |rest|
    ensures (head + " " + rest)[|head| + 1 + a..|head| + 1 + b] == rest[a..b]
    ensures b < |rest| ==> (head + " " + rest)[|head| + 1 + b] == rest[b]
  {
  }

  /** Exactly one argument is truthy: the class name is that argument. */
  lemma SingleClassName(classNames: seq<Option<string>>, i: nat)
    requires i < |classNames| && Truthy(classNames[i])
    requires forall j :: 0 <= j < |classNames| && j != i ==> !Truthy(classNames[j])
    ensures GenerateClassName(classNames) == classNames[i].value
  {
    var before, after := classNames[..i], classNames[i + 1..];
    assert classNames == before + [classNames[i]] + after;
    KeptAppend(before + [classNames[i]], after);
    KeptAppend(before, [classNames[i]]);
    assert Kept([classNames[i]]) == [classNames[i].value];
    KeptNone(before);
    KeptNone(after);
  }

  /** The length of the class name: the kept arguments' lengths plus one space between each two. */
  lemma GenerateClassNameLength(classNames: seq<Option<string>>)
    requires exists k :: 0 <= k < |classNames| && Truthy(classNames[k])
    ensures |GenerateClassName(classNames)| == SumLengths(Kept(classNames)) + |Kept(classNames)| - 1
  {
  }
}
