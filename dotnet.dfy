/** The pieces of the .NET runtime the exporter relies on: nullable references,
    the exceptions it can raise, and the string operations it calls
    (`Replace`, `Split`, `ToLower`, `string.IsNullOrEmpty`, interpolation). */
module DotNet {

  /** A reference that may be null. */
  datatype Option<+T> = None | Some(value: T)

  /** The exceptions the modelled code can raise. */
  datatype Exception =
    | IndexOutOfRange                 // `split[1]` on a one-segment split
    | NullReference                   // a member access on null
    | ArgumentException(message: string)

  /** Either a value, or an exception that unwinds the caller. */
  datatype Outcome<+T> = Done(value: T) | Threw(exception: Exception)

  /** `string.IsNullOrEmpty(s)`. */
  predicate IsNullOrEmpty(s: Option<string>) {
    s.None? || s.value == ""
  }

  /** What `$"{s}"` prints: null interpolates as the empty string. */
  function Interp(s: Option<string>): (r: string)
    ensures s.Some? ==> r == s.value
    ensures s.None? ==> r == ""
  {
    if s.Some? then s.value else ""
  }

  /** Number of occurrences of `c` in `s`. */
  function Count(s: string, c: char): nat {
    if s == [] then 0 else (if s[0] == c then 1 else 0) + Count(s[1..], c)
  }

  /** `s.Replace(c.ToString(), "")`: `s` with every `c` removed. */
  function RemoveChar(s: string, c: char): string {
    if s == [] then []
    else if s[0] == c then RemoveChar(s[1..], c)
    else [s[0]] + RemoveChar(s[1..], c)
  }

  predicate IsBracket(c: char) {
    c == '[' || c == ']'
  }

  /** `value.Replace("]", "").Replace("[", "")` (src/StringExtension.cs). */
  function StripBracket(value: string): (r: string)
    ensures '[' !in r && ']' !in r
    ensures |r| == |value| - Count(value, '[') - Count(value, ']')
  {
    var inner := RemoveChar(value, ']');
    RemoveCharMembers(value, ']', ']');
    RemoveCharMembers(inner, '[', '[');
    RemoveCharMembers(inner, '[', ']');
    RemoveCharLength(value, ']');
    RemoveCharLength(inner, '[');
    RemoveCharCount(value, ']', '[');
    RemoveChar(inner, '[')
  }

  /** Reference definition: keep exactly the characters that are not brackets. */
  function WithoutBrackets(s: string): string {
    if s == [] then [] else (if IsBracket(s[0]) then [] else [s[0]]) + WithoutBrackets(s[1..])
  }

  /** `s.Split(sep)`: the maximal sep-free pieces, empty ones included. */
  function Split(s: string, sep: char): (parts: seq<string>)
    ensures |parts| >= 1
  {
    if s == [] then [""]
    else
      var rest := Split(s[1..], sep);
      if s[0] == sep then [""] + rest else [[s[0]] + rest[0]] + rest[1..]
  }

  /** `string.Join(sep, parts)`. */
  function Join(parts: seq<string>, sep: char): string
    requires |parts| >= 1
  {
    if |parts| == 1 then parts[0] else parts[0] + [sep] + Join(parts[1..], sep)
  }

  /** ASCII case mapping of `ToLower` (culture-specific mappings are not modelled). */
  function LowerChar(c: char): char {
    if 'A' <= c <= 'Z' then (c as int + 32) as char else c
  }

  function ToLower(s: string): (r: string)
    ensures |r| == |s|
  {
    seq(|s|, i requires 0 <= i < |s| => LowerChar(s[i]))
  }

  // ---------------------------------------------------------------------------
  // Replace / Count

  lemma {:induction false} CountAppend(a: string, b: string, c: char)
    ensures Count(a + b, c) == Count(a, c) + Count(b, c)
  {
    if a != [] {
      assert (a + b)[1..] == a[1..] + b;
      CountAppend(a[1..], b, c);
    } else {
      assert a + b == b;
    }
  }

  lemma {:induction false} CountPositive(s: string, c: char)
    ensures c in s <==> Count(s, c) > 0
  {
    if s != [] {
      CountPositive(s[1..], c);
      assert c in s <==> s[0] == c || c in s[1..];
    }
  }

  lemma {:induction false} RemoveCharAppend(a: string, b: string, c: char)
    ensures RemoveChar(a + b, c) == RemoveChar(a, c) + RemoveChar(b, c)
  {
    if a != [] {
      assert (a + b)[1..] == a[1..] + b;
      RemoveCharAppend(a[1..], b, c);
    } else {
      assert a + b == b;
    }
  }

  /** A character survives `Replace(c, "")` exactly when it was there and is not `c`. */
  lemma {:induction false} RemoveCharMembers(s: string, c: char, x: char)
    ensures x in RemoveChar(s, c) <==> x in s && x != c
  {
    if s != [] {
      RemoveCharMembers(s[1..], c, x);
      assert x in s <==> x == s[0] || x in s[1..];
    }
  }

  lemma {:induction false} RemoveCharAbsent(s: string, c: char)
    requires c !in s
    ensures RemoveChar(s, c) == s
  {
    if s != [] {
      assert s == [s[0]] + s[1..];
      RemoveCharAbsent(s[1..], c);
    }
  }

  lemma {:induction false} RemoveCharCount(s: string, c: char, d: char)
    ensures Count(RemoveChar(s, c), d) == if c == d then 0 else Count(s, d)
  {
    if s != [] {
      RemoveCharCount(s[1..], c, d);
      if s[0] != c {
        CountAppend([s[0]], RemoveChar(s[1..], c), d);
      }
    }
  }

  lemma {:induction false} RemoveCharLength(s: string, c: char)
    ensures |RemoveChar(s, c)| == |s| - Count(s, c)
  {
    if s != [] {
      RemoveCharLength(s[1..], c);
    }
  }

  // ---------------------------------------------------------------------------
  // StripBracket

  /** StripBracket is exactly "drop the bracket characters, keep the rest in order". */
  lemma {:induction false} StripBracketIsFilter(s: string)
    ensures StripBracket(s) == WithoutBrackets(s)
  {
    if s != [] {
      StripBracketIsFilter(s[1..]);
      var inner := RemoveChar(s[1..], ']');
      var head := if s[0] == ']' then [] else [s[0]];
      assert RemoveChar(s, ']') == head + inner;
      RemoveCharAppend(head, inner, '[');
      assert RemoveChar(head, '[') == if IsBracket(s[0]) then [] else [s[0]];
    }
  }

  /** The result holds no bracket and every other character of the input. */
  lemma StripBracketMembers(s: string, x: char)
    ensures x in StripBracket(s) <==> x in s && !IsBracket(x)
  {
    RemoveCharMembers(s, ']', x);
    RemoveCharMembers(RemoveChar(s, ']'), '[', x);
  }

  lemma StripBracketNoBrackets(s: string)
    ensures '[' !in StripBracket(s) && ']' !in StripBracket(s)
  {
    StripBracketMembers(s, '[');
    StripBracketMembers(s, ']');
  }

  /** A bracket-free string comes back unchanged. */
  lemma StripBracketUnchanged(s: string)
    requires '[' !in s && ']' !in s
    ensures StripBracket(s) == s
  {
    RemoveCharAbsent(s, ']');
    RemoveCharAbsent(s, '[');
  }

  lemma StripBracketIdempotent(s: string)
    ensures StripBracket(StripBracket(s)) == StripBracket(s)
  {
    StripBracketNoBrackets(s);
    StripBracketUnchanged(StripBracket(s));
  }

  /** Every character other than a bracket keeps its number of occurrences, `.` included. */
  lemma StripBracketCount(s: string, d: char)
    requires !IsBracket(d)
    ensures Count(StripBracket(s), d) == Count(s, d)
  {
    RemoveCharCount(s, ']', d);
    RemoveCharCount(RemoveChar(s, ']'), '[', d);
  }

  /** Bracketing a bracket-free name and stripping the brackets again gives the name back. */
  lemma StripBracketWrapped(s: string)
    requires '[' !in s && ']' !in s
    ensures StripBracket("[" + s + "]") == s
  {
    RemoveCharAppend("[" + s, "]", ']');
    RemoveCharAppend("[", s, ']');
    RemoveCharAbsent(s, ']');
    assert RemoveChar("[" + s + "]", ']') == "[" + s;
    RemoveCharAppend("[", s, '[');
    RemoveCharAbsent(s, '[');
  }

  lemma StripBracketLength(s: string)
    ensures |StripBracket(s)| == |s| - Count(s, '[') - Count(s, ']')
  {
    RemoveCharLength(s, ']');
    RemoveCharLength(RemoveChar(s, ']'), '[');
    RemoveCharCount(s, ']', '[');
  }

  // ---------------------------------------------------------------------------
  // Split / Join

  /** Split yields one more piece than there are separators. */
  lemma {:induction false} SplitLength(s: string, sep: char)
    ensures |Split(s, sep)| == Count(s, sep) + 1
  {
    if s != [] {
      SplitLength(s[1..], sep);
    }
  }

  /** No piece contains the separator. */
  lemma {:induction false} SplitPiecesSepFree(s: string, sep: char)
    ensures forall p :: p in Split(s, sep) ==> sep !in p
  {
    if s != [] {
      SplitPiecesSepFree(s[1..], sep);
      var rest := Split(s[1..], sep);
      assert rest[0] in rest;
    }
  }

  /** Joining the pieces back gives the original string. */
  lemma {:induction false} JoinSplit(s: string, sep: char)
    ensures Join(Split(s, sep), sep) == s
  {
    if s != [] {
      JoinSplit(s[1..], sep);
      var rest := Split(s[1..], sep);
      if s[0] == sep {
        assert ([""] + rest)[1..] == rest;
      } else {
        var parts := [[s[0]] + rest[0]] + rest[1..];
        if |rest| > 1 {
          assert parts[1..] == rest[1..];
          assert Join(rest, sep) == rest[0] + [sep] + Join(rest[1..], sep);
        }
      }
    }
  }

  /** Splitting a joined list of separator-free pieces gives the pieces back. */
  lemma {:induction false} SplitJoin(parts: seq<string>, sep: char)
    requires |parts| >= 1
    requires forall p :: p in parts ==> sep !in p
    ensures Split(Join(parts, sep), sep) == parts
  {
    if |parts| == 1 {
      SplitOfSepFree(parts[0], sep);
    } else {
      assert forall p :: p in parts[1..] ==> p in parts;
      SplitJoin(parts[1..], sep);
      SplitPrefix(parts[0], Join(parts[1..], sep), sep);
      assert parts == [parts[0]] + parts[1..];
    }
  }

  lemma {:induction false} SplitOfSepFree(s: string, sep: char)
    requires sep !in s
    ensures Split(s, sep) == [s]
  {
    if s != [] {
      SplitOfSepFree(s[1..], sep);
      assert s == [s[0]] + s[1..];
    }
  }

  /** Splitting `a + sep + b` with a separator-free `a` yields `a` followed by the pieces of `b`. */
  lemma {:induction false} SplitPrefix(a: string, b: string, sep: char)
    requires sep !in a
    ensures Split(a + [sep] + b, sep) == [a] + Split(b, sep)
  {
    if a == [] {
      assert [sep] + b == a + [sep] + b;
      assert ([sep] + b)[1..] == b;
    } else {
      assert (a + [sep] + b)[1..] == a[1..] + [sep] + b;
      SplitPrefix(a[1..], b, sep);
      assert a == [a[0]] + a[1..];
    }
  }

  // ---------------------------------------------------------------------------
  // HashSet enumeration

  ghost predicate Distinct<T>(s: seq<T>) {
    forall i, j :: 0 <= i < j < |s| ==> s[i] != s[j]
  }

  /** `order` enumerates the set `s` as `foreach` over a HashSet does: every element
      exactly once, in an order the model leaves open. */
  ghost predicate IsListing<T(!new)>(order: seq<T>, s: set<T>) {
    Distinct(order) && forall x :: x in order <==> x in s
  }

  /** A listing is as long as the set it lists. */
  lemma {:induction false} ListingLength<T(!new)>(order: seq<T>, s: set<T>)
    requires IsListing(order, s)
    ensures |order| == |s|
    decreases |order|
  {
    if order != [] {
      var rest := order[1..];
      var s' := s - {order[0]};
      forall i, j | 0 <= i < j < |rest| ensures rest[i] != rest[j] {
        assert rest[i] == order[i + 1] && rest[j] == order[j + 1];
      }
      forall x ensures x in rest <==> x in s' {
        if x in rest {
          var j :| 0 <= j < |rest| && rest[j] == x;
          assert order[j + 1] == x;
        }
        if x in order && x != order[0] {
          var j :| 0 <= j < |order| && order[j] == x;
          assert j != 0;
          assert rest[j - 1] == x;
        }
      }
      ListingLength(rest, s');
    } else {
      assert forall x :: x !in s;
      assert s == {};
    }
  }
}
