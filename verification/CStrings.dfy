/**
 The C string primitives the library leans on (strsep, strchr, strrchr, strstr
 and prefix tests), on immutable character sequences.  A C string is the
 sequence of its characters up to the terminating NUL; a null pointer is None.
 */
module CStrings {

  datatype Option<+T> = None | Some(value: T)

  /** Position of the first `c` in `s`, or |s| when there is none. */
  function IndexOf(s: string, c: char): (k: nat)
    ensures k <= |s|
    ensures forall i :: 0 <= i < k ==> s[i] != c
    ensures k < |s| ==> s[k] == c
  {
    if s == "" || s[0] == c then 0 else 1 + IndexOf(s[1..], c)
  }

  /** Position of the last `c` in `s`, or -1 when there is none. */
  function LastIndexOf(s: string, c: char): (k: int)
    ensures -1 <= k < |s|
    ensures forall i :: k < i < |s| ==> s[i] != c
    ensures k >= 0 ==> s[k] == c
  {
    if s == "" then -1
    else if s[|s| - 1] == c then |s| - 1
    else LastIndexOf(s[..|s| - 1], c)
  }

  /** strsep on a non-null string: the token before the first `c`, and what is left (None for a null pointer). */
  function Strsep(s: string, c: char): (r: (string, Option<string>))
    ensures c !in r.0
    ensures s == match r.1 case None => r.0 case Some(rest) => r.0 + [c] + rest
  {
    var k := IndexOf(s, c);
    if k == |s| then (s, None) else (s[..k], Some(s[k + 1..]))
  }

  /** str_has_prefix */
  predicate HasPrefix(s: string, prefix: string) {
    |prefix| <= |s| && s[..|prefix|] == prefix
  }

  predicate OccursAt(s: string, needle: string, i: nat) {
    i + |needle| <= |s| && s[i..i + |needle|] == needle
  }

  /** Position of the first occurrence of `needle` in `s` at or after `from`, or None. */
  function FindFrom(s: string, needle: string, from: nat): (k: Option<nat>)
    requires from <= |s|
    ensures k.Some? ==> from <= k.value && OccursAt(s, needle, k.value)
    ensures forall i :: from <= i <= |s| && (k.None? || i < k.value) ==> !OccursAt(s, needle, i)
    decreases |s| - from
  {
    if OccursAt(s, needle, from) then Some(from)
    else if from == |s| then None
    else FindFrom(s, needle, from + 1)
  }

  /** strstr */
  function Find(s: string, needle: string): Option<nat> {
    FindFrom(s, needle, 0)
  }

  predicate Contains(s: string, needle: string) {
    Find(s, needle).Some?
  }

  lemma OccursFirst(s: string, needle: string, i: nat)
    requires needle != ""
    ensures OccursAt(s, needle, i) ==> s[i] == needle[0]
  {
  }

  lemma FindIs(s: string, needle: string, k: nat)
    requires k <= |s| && OccursAt(s, needle, k) && forall i :: 0 <= i < k ==> !OccursAt(s, needle, i)
    ensures Find(s, needle) == Some(k)
  {
  }

  lemma ConcatAssociates<T>(a: seq<T>, b: seq<T>, c: seq<T>)
    ensures (a + b) + c == a + (b + c)
  {
  }

  lemma IndexOfIs(s: string, c: char, k: nat)
    requires k <= |s| && (forall i :: 0 <= i < k ==> s[i] != c)
    requires k < |s| ==> s[k] == c
    ensures IndexOf(s, c) == k
  {
  }

  lemma LastIndexOfIs(s: string, c: char, k: nat)
    requires k < |s| && s[k] == c
    requires c !in s[k + 1..]
    ensures LastIndexOf(s, c) == k
  {
  }

  /** A cut is unique: the token before the first separator and the rest determine each other. */
  lemma StrsepOfJoin(token: string, c: char, rest: string)
    requires c !in token
    ensures Strsep(token + [c] + rest, c) == (token, Some(rest))
  {
    var s := token + [c] + rest;
    IndexOfIs(s, c, |token|);
    assert s[..|token|] == token && s[|token| + 1..] == rest;
  }

  lemma StrsepOfToken(token: string, c: char)
    requires c !in token
    ensures Strsep(token, c) == (token, None)
  {
  }
}
