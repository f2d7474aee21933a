/** Strings as sequences of characters: the name order used to sort query
    results, splitting at separator characters, joining and prefix tests. */
module Strings {

  /** Lexicographic order on strings, character by character: the order
      Target and reference lists are sorted by. */
  predicate LexLe(a: string, b: string)
    decreases |a|
  {
    |a| == 0 || (|b| > 0 && (a[0] < b[0] || (a[0] == b[0] && LexLe(a[1..], b[1..]))))
  }

  lemma {:induction false} LexLeTotal(a: string, b: string)
    ensures LexLe(a, b) || LexLe(b, a)
    decreases |a|
  {
    if |a| > 0 && |b| > 0 && a[0] == b[0] {
      LexLeTotal(a[1..], b[1..]);
    }
  }

  lemma {:induction false} LexLeTransitive(a: string, b: string, c: string)
    requires LexLe(a, b) && LexLe(b, c)
    ensures LexLe(a, c)
    decreases |a|
  {
    if |a| > 0 && a[0] == b[0] && b[0] == c[0] {
      LexLeTransitive(a[1..], b[1..], c[1..]);
    }
  }

  lemma {:induction false} LexLeAntisymmetric(a: string, b: string)
    requires LexLe(a, b) && LexLe(b, a)
    ensures a == b
    decreases |a|
  {
    if |a| > 0 {
      LexLeAntisymmetric(a[1..], b[1..]);
      assert a == [a[0]] + a[1..] && b == [b[0]] + b[1..];
    }
  }

  predicate HasPrefix(s: string, prefix: string) {
    |prefix| <= |s| && s[..|prefix|] == prefix
  }

  /** Number of characters of s that satisfy p. */
  function CountWhere(s: string, p: char -> bool): nat {
    if s == [] then 0 else (if p(s[0]) then 1 else 0) + CountWhere(s[1..], p)
  }

  /** s with every character satisfying p deleted. */
  function RemoveWhere(s: string, p: char -> bool): (r: string)
    ensures forall c :: c in r ==> !p(c)
  {
    if s == [] then [] else (if p(s[0]) then [] else [s[0]]) + RemoveWhere(s[1..], p)
  }

  /** Foundation's components(separatedBy:): cut s at every character that
      satisfies isSep. Empty components are kept, so there is always one more
      component than separators. */
  function Split(s: string, isSep: char -> bool): (r: seq<string>)
    ensures |r| >= 1
    decreases |s|
  {
    if s == [] then [""]
    else
      var rest := Split(s[1..], isSep);
      if isSep(s[0]) then [""] + rest
      else [[s[0]] + rest[0]] + rest[1..]
  }

  /** The components joined with sep between them. */
  function Join(parts: seq<string>, sep: string): string {
    if |parts| == 0 then ""
    else if |parts| == 1 then parts[0]
    else parts[0] + sep + Join(parts[1..], sep)
  }

  /** The components glued together with no separator (Swift's joined()). */
  function Concat(parts: seq<string>): string {
    if parts == [] then "" else parts[0] + Concat(parts[1..])
  }

  lemma {:induction false} SplitComponentsHaveNoSeparator(s: string, isSep: char -> bool)
    ensures forall i, c :: 0 <= i < |Split(s, isSep)| && c in Split(s, isSep)[i] ==> !isSep(c)
    decreases |s|
  {
    if s != [] {
      SplitComponentsHaveNoSeparator(s[1..], isSep);
    }
  }

  lemma {:induction false} SplitCount(s: string, isSep: char -> bool)
    ensures |Split(s, isSep)| == CountWhere(s, isSep) + 1
    decreases |s|
  {
    if s != [] {
      SplitCount(s[1..], isSep);
    }
  }

  /** Joining the components with the one separator character gives back the string. */
  lemma {:induction false} JoinSplit(s: string, isSep: char -> bool, sep: char)
    requires forall c :: isSep(c) <==> c == sep
    ensures Join(Split(s, isSep), [sep]) == s
    decreases |s|
  {
    if s != [] {
      var rest := Split(s[1..], isSep);
      JoinSplit(s[1..], isSep, sep);
      if s[0] == sep {
        assert Split(s, isSep) == [""] + rest;
        assert s == [s[0]] + s[1..];
      } else {
        JoinHead(rest, [sep], [s[0]]);
        assert s == [s[0]] + s[1..];
      }
    }
  }

  lemma {:induction false} JoinHead(parts: seq<string>, sep: string, x: string)
    requires |parts| >= 1
    ensures Join([x + parts[0]] + parts[1..], sep) == x + Join(parts, sep)
  {
    var q := [x + parts[0]] + parts[1..];
    assert q[1..] == parts[1..];
  }

  /** Concatenating all components is the same as deleting the separators. */
  lemma {:induction false} ConcatSplit(s: string, isSep: char -> bool)
    ensures Concat(Split(s, isSep)) == RemoveWhere(s, isSep)
    decreases |s|
  {
    if s != [] {
      var rest := Split(s[1..], isSep);
      ConcatSplit(s[1..], isSep);
      if isSep(s[0]) {
        assert ([""] + rest)[1..] == rest;
      } else {
        var q := [[s[0]] + rest[0]] + rest[1..];
        assert q[1..] == rest[1..];
        assert Concat(rest) == rest[0] + Concat(rest[1..]);
      }
    }
  }

  /** Split one character at a time: a separator starts a new component, any
      other character is prepended to the first component. */
  lemma SplitCons(x: char, s: string, isSep: char -> bool)
    ensures Split([x] + s, isSep) ==
            if isSep(x) then [""] + Split(s, isSep)
            else [[x] + Split(s, isSep)[0]] + Split(s, isSep)[1..]
  {
    assert ([x] + s)[0] == x && ([x] + s)[1..] == s;
  }

  lemma AppendAssociative<T>(x: seq<T>, y: seq<T>, z: seq<T>)
    ensures (x + y) + z == x + (y + z)
  {
  }

  /** A separator character splits the string into the components before it
      and the components after it. */
  lemma {:induction false} SplitAround(a: string, c: char, b: string, isSep: char -> bool)
    requires isSep(c)
    ensures Split(a + [c] + b, isSep) == Split(a, isSep) + Split(b, isSep)
    decreases |a|
  {
    if a == [] {
      assert a + [c] + b == [c] + b;
      SplitCons(c, b, isSep);
    } else {
      SplitAround(a[1..], c, b, isSep);
      assert a + [c] + b == [a[0]] + (a[1..] + [c] + b);
      assert a == [a[0]] + a[1..];
      SplitAroundStep(a[0], a[1..] + [c] + b, a[1..], Split(b, isSep), isSep);
    }
  }

  /** The inductive step of SplitAround: prepending one character to both t
      and its prefix u keeps the components after u. */
  lemma SplitAroundStep(x: char, t: string, u: string, rb: seq<string>, isSep: char -> bool)
    requires Split(t, isSep) == Split(u, isSep) + rb
    ensures Split([x] + t, isSep) == Split([x] + u, isSep) + rb
  {
    SplitCons(x, t, isSep);
    SplitCons(x, u, isSep);
    var ru := Split(u, isSep);
    if isSep(x) {
      AppendAssociative([""], ru, rb);
    } else {
      ExtendFirstComponent([x], ru, rb);
    }
  }

  /** Extending the first component commutes with appending more components. */
  lemma ExtendFirstComponent(p: string, ru: seq<string>, rb: seq<string>)
    requires |ru| >= 1
    ensures [p + (ru + rb)[0]] + (ru + rb)[1..] == ([p + ru[0]] + ru[1..]) + rb
  {
    assert (ru + rb)[0] == ru[0];
    assert (ru + rb)[1..] == ru[1..] + rb;
    AppendAssociative([p + ru[0]], ru[1..], rb);
  }

  /** Cutting at any separator: the components before it, then those after it. */
  lemma SplitAt(s: string, isSep: char -> bool, i: nat)
    requires i < |s| && isSep(s[i])
    ensures Split(s, isSep) == Split(s[..i], isSep) + Split(s[i + 1..], isSep)
  {
    assert s == s[..i] + [s[i]] + s[i + 1..];
    SplitAround(s[..i], s[i], s[i + 1..], isSep);
  }

  /** A string with no separator is a single component. */
  lemma {:induction false} SplitNoSeparator(s: string, isSep: char -> bool)
    requires forall i :: 0 <= i < |s| ==> !isSep(s[i])
    ensures Split(s, isSep) == [s]
    decreases |s|
  {
    if s != [] {
      SplitNoSeparator(s[1..], isSep);
      assert [s[0]] + s[1..] == s;
    }
  }

  /** The index of the first character satisfying p, or |s| when there is none. */
  function FirstIndexWhere(s: string, p: char -> bool): (i: nat)
    ensures i <= |s| && (i < |s| ==> p(s[i]))
    ensures forall k :: 0 <= k < i ==> !p(s[k])
  {
    if s == [] then 0 else if p(s[0]) then 0 else 1 + FirstIndexWhere(s[1..], p)
  }

  /** The index of the last character satisfying p, or -1 when there is none. */
  function LastIndexWhere(s: string, p: char -> bool): (j: int)
    ensures -1 <= j < |s| && (j >= 0 ==> p(s[j]))
    ensures forall k :: j < k < |s| ==> !p(s[k])
  {
    if s == [] then -1 else if p(s[|s| - 1]) then |s| - 1 else LastIndexWhere(s[..|s| - 1], p)
  }

  /** More than one component means some separator. */
  lemma SplitHasSeparator(s: string, isSep: char -> bool)
    requires |Split(s, isSep)| >= 2
    ensures exists k :: 0 <= k < |s| && isSep(s[k])
  {
    if forall k :: 0 <= k < |s| ==> !isSep(s[k]) {
      SplitNoSeparator(s, isSep);
    }
  }

  /** Cutting at the first separator: the first component, then the rest. */
  lemma SplitAtFirst(s: string, isSep: char -> bool, i: nat)
    requires i < |s| && isSep(s[i]) && forall k :: 0 <= k < i ==> !isSep(s[k])
    ensures Split(s, isSep) == [s[..i]] + Split(s[i + 1..], isSep)
  {
    SplitAt(s, isSep, i);
    SplitNoSeparator(s[..i], isSep);
  }


  /** The part after the last separator holds no separator. */
  lemma NoSeparatorAfter(s: string, isSep: char -> bool, j: nat, b: string)
    requires j < |s| && b == s[j + 1..] && forall k :: j < k < |s| ==> !isSep(s[k])
    ensures forall k :: 0 <= k < |b| ==> !isSep(b[k])
  {
    forall k | 0 <= k < |b| ensures !isSep(b[k]) {
      assert b[k] == s[j + 1 + k];
    }
  }


  /** Cutting at the last separator: the leading components, then the last one. */
  lemma SplitAtLast(s: string, isSep: char -> bool, j: nat)
    requires j < |s| && isSep(s[j]) && forall k :: j < k < |s| ==> !isSep(s[k])
    ensures Split(s, isSep) == Split(s[..j], isSep) + [s[j + 1..]]
  {
    SplitAt(s, isSep, j);
    NoSeparatorAfter(s, isSep, j, s[j + 1..]);
    SplitNoSeparator(s[j + 1..], isSep);
  }

}
