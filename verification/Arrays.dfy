/**
 The NULL-padded string arrays of src/utils.c: array_pack, array_size and
 array_append.
 */
module Arrays {
  import opened CStrings

  type Slots = seq<Option<string>>

  function Blank(n: nat): (s: Slots)
    ensures |s| == n && forall i :: 0 <= i < n ==> s[i] == None
  {
    seq(n, i => None)
  }

  /** The non-null entries, in order. */
  function Filled(s: Slots): seq<string> {
    if s == [] then []
    else
      var before, last := Filled(s[..|s| - 1]), s[|s| - 1];
      if last.Some? then before + [last.value] else before
  }

  function Somes(names: seq<string>): (s: Slots)
    ensures |s| == |names| && forall i :: 0 <= i < |names| ==> s[i] == Some(names[i])
  {
    seq(|names|, i requires 0 <= i < |names| => Some(names[i]))
  }

  lemma FilledOfPush(s: Slots, x: Option<string>)
    ensures Filled(s + [x]) == if x.Some? then Filled(s) + [x.value] else Filled(s)
  {
  }

  /** Filling keeps order and loses nothing: the k-th name kept is the k-th non-null entry. */
  lemma {:induction false} FilledPlaces(s: Slots, i: nat)
    requires i < |s| && s[i].Some?
    ensures |Filled(s[..i])| < |Filled(s)| && Filled(s)[|Filled(s[..i])|] == s[i].value
    decreases |s|
  {
    var init := s[..|s| - 1];
    if i < |s| - 1 {
      assert init[..i] == s[..i];
      FilledPlaces(init, i);
    }
  }

  function Swapped(s: Slots, i: nat, j: nat): (r: Slots)
    requires i < |s| && j < |s|
    ensures |r| == |s|
  {
    s[i := s[j]][j := s[i]]
  }

  /** The array after the first `p` entries were looked at and `n` of them kept. */
  ghost predicate Packing(all: Slots, p: nat, n: nat, cur: Slots) {
    && p <= |all|
    && n == |Filled(all[..p])| <= p
    && cur == Somes(Filled(all[..p])) + Blank(p - n) + all[p..]
    && multiset(cur) == multiset(all)
  }

  lemma PackStart(all: Slots)
    ensures Packing(all, 0, 0, all)
  {
  }

  /** What has not been looked at has not been moved. */
  lemma PackAhead(all: Slots, p: nat, n: nat, cur: Slots)
    requires Packing(all, p, n, cur) && p < |all|
    ensures |cur| == |all| && n <= p && cur[p] == all[p]
  {
  }

  lemma PackSkip(all: Slots, p: nat, n: nat, cur: Slots)
    requires Packing(all, p, n, cur) && p < |all| && all[p].None?
    ensures Packing(all, p + 1, n, cur)
  {
    assert all[..p + 1][..p] == all[..p];
    assert Blank(p + 1 - n) == Blank(p - n) + [None];
    assert all[p..] == [None] + all[p + 1..];
  }

  lemma PackSwap(all: Slots, p: nat, n: nat, cur: Slots)
    requires Packing(all, p, n, cur) && p < |all| && all[p].Some?
    requires |cur| == |all| && n <= p
    ensures Packing(all, p + 1, n + 1, Swapped(cur, n, p))
  {
    hide Blank, Somes, Filled, Packing, Swapped;
    var f, x := Filled(all[..p]), all[p].value;
    PackedSwap(all, p, n, cur);
    PackedSoFar(all, p, n, cur);
    FilledOfPush(all[..p], Some(x));
    SplitAround(all, p);
    PackedNow(all, p + 1, f + [x], Swapped(cur, n, p));
  }

  lemma PackedSwap(all: Slots, p: nat, n: nat, cur: Slots)
    requires Packing(all, p, n, cur) && p < |all| && all[p].Some?
    requires |cur| == |all| && n <= p
    ensures var next := Swapped(cur, n, p);
            next == Somes(Filled(all[..p]) + [all[p].value]) + Blank(p - n) + all[p + 1..] && multiset(next) == multiset(all)
  {
    hide Blank, Somes, Filled, Packing, Swapped;
    PackedSoFar(all, p, n, cur);
    SplitAround(all, p);
    SwapShape(Filled(all[..p]), p - n, all[p].value, all[p + 1..], cur);
  }

  lemma SplitAround(s: Slots, p: nat)
    requires p < |s|
    ensures s[p..] == [s[p]] + s[p + 1..] && s[..p + 1] == s[..p] + [s[p]]
  {
  }

  lemma PackedSoFar(all: Slots, p: nat, n: nat, cur: Slots)
    requires Packing(all, p, n, cur)
    ensures p <= |all| && n == |Filled(all[..p])| <= p
    ensures cur == Somes(Filled(all[..p])) + Blank(p - n) + all[p..] && multiset(cur) == multiset(all)
  {
  }

  lemma PackedNow(all: Slots, p: nat, f: seq<string>, cur: Slots)
    requires p <= |all| && f == Filled(all[..p]) && |f| <= p
    requires cur == Somes(f) + Blank(p - |f|) + all[p..] && multiset(cur) == multiset(all)
    ensures Packing(all, p, |f|, cur)
  {
  }

  /** Swapping the first entry past the gap with the first of the gap moves the gap by one. */
  lemma SwapShape(f: seq<string>, gap: nat, x: string, rest: Slots, cur: Slots)
    requires cur == Somes(f) + Blank(gap) + ([Some(x)] + rest)
    ensures var n, p := |f|, |f| + gap;
            var next := Swapped(cur, n, p);
            next == Somes(f + [x]) + Blank(gap) + rest && multiset(next) == multiset(cur)
  {
    var n, p := |f|, |f| + gap;
    var next, want := Swapped(cur, n, p), Somes(f + [x]) + Blank(gap) + rest;
    assert |next| == |want|;
    forall i | 0 <= i < |next|
      ensures next[i] == want[i]
    {
      if n < i < p { assert cur[i] == Blank(gap)[i - n]; assert want[i] == Blank(gap)[i - n - 1]; }
    }
    assert next == want;
  }

  method SwapEntries(arr: array<Option<string>>, i: nat, j: nat)
    requires i < arr.Length && j < arr.Length
    modifies arr
    ensures arr[..] == Swapped(old(arr[..]), i, j)
  {
    arr[i], arr[j] := arr[j], arr[i];
  }

  /** The loop of array_pack: the first `size` entries are compacted in place by swaps. */
  method PackEntries(arr: array<Option<string>>, size: nat) returns (n: nat)
    requires size <= arr.Length
    modifies arr
    ensures Packing(old(arr[..]), size, n, arr[..])
  {
    hide Packing, Filled, Swapped, Blank, Somes;
    n := 0;
    ghost var all := arr[..];
    PackStart(all);
    for p := 0 to size
      invariant n <= p
      invariant Packing(all, p, n, arr[..])
    {
      ghost var cur := arr[..];
      PackAhead(all, p, n, cur);
      if arr[p] != None {
        PackSwap(all, p, n, cur);
        SwapEntries(arr, n, p);
        n := n + 1;
      } else {
        PackSkip(all, p, n, cur);
      }
    }
  }

  /** array_pack: no array leaves the size as it is. */
  method ArrayPack(arr: array?<Option<string>>, size: nat) returns (n: nat)
    requires arr != null ==> size <= arr.Length
    modifies arr
    ensures arr == null ==> n == size
    ensures arr != null ==> Packing(old(arr[..]), size, n, arr[..])
  {
    hide Packing;
    n := size;
    if arr != null {
      n := PackEntries(arr, size);
    }
  }

  lemma Cancel(a: multiset<Option<string>>, b: multiset<Option<string>>, c: multiset<Option<string>>)
    requires a + c == b + c
    ensures a == b
  {
    forall x: Option<string>
      ensures a[x] == b[x]
    {
      assert (a + c)[x] == (b + c)[x];
    }
  }

  /** What packing promises: the kept entries in order, then nulls, nothing beyond `size` touched, nothing lost. */
  lemma PackedShape(all: Slots, size: nat, n: nat, cur: Slots)
    requires Packing(all, size, n, cur)
    ensures n == |Filled(all[..size])| <= size <= |cur| == |all|
    ensures forall i :: 0 <= i < n ==> cur[i] == Some(Filled(all[..size])[i])
    ensures forall i :: n <= i < size ==> cur[i] == None
    ensures cur[size..] == all[size..]
    ensures multiset(cur[..size]) == multiset(all[..size])
  {
    assert cur[size..] == all[size..];
    assert cur == cur[..size] + cur[size..] && all == all[..size] + all[size..];
    assert multiset(cur) == multiset(cur[..size]) + multiset(cur[size..]);
    assert multiset(all) == multiset(all[..size]) + multiset(all[size..]);
    Cancel(multiset(cur[..size]), multiset(all[..size]), multiset(all[size..]));
  }

  /** A recorded list followed by nulls, as calloc and *ptr++ leave it. */
  ghost predicate Ledger(names: seq<string>, arr: Slots) {
    |names| <= |arr| && arr == Somes(names) + Blank(|arr| - |names|)
  }

  lemma LedgerStart(arr: Slots)
    requires arr == Blank(|arr|)
    ensures Ledger([], arr)
  {
  }

  lemma LedgerPush(names: seq<string>, arr: Slots, x: string)
    requires Ledger(names, arr) && |names| < |arr|
    ensures Ledger(names + [x], arr[|names| := Some(x)])
  {
  }

  lemma LedgerPlaces(names: seq<string>, arr: Slots)
    requires Ledger(names, arr)
    ensures |names| <= |arr|
    ensures forall i :: 0 <= i < |names| ==> arr[i] == Some(names[i])
    ensures forall i :: |names| <= i < |arr| ==> arr[i] == None
  {
  }

  /** The first null entry of a ledger is where its names end. */
  lemma LedgerEnd(names: seq<string>, arr: Slots, n: nat)
    requires Ledger(names, arr) && n < |arr| && arr[n] == None && forall i :: 0 <= i < n ==> arr[i].Some?
    ensures n == |names| && arr[..n] == Somes(names)
  {
    LedgerPlaces(names, arr);
    assert |names| < |arr| && arr[|names|] == None;
  }

  /** Copying the names of one ledger behind those of another records both. */
  lemma LedgerAppend(a: seq<string>, arr: Slots, b: seq<string>, next: Slots)
    requires Ledger(a, arr) && |arr| == |next| && |a| + |b| <= |arr|
    requires next[..|a|] == arr[..|a|] && next[|a|..|a| + |b|] == Somes(b) && next[|a| + |b|..] == arr[|a| + |b|..]
    ensures Ledger(a + b, next)
  {
  }

  lemma {:induction false} FilledOfSomes(names: seq<string>)
    ensures Filled(Somes(names)) == names
  {
    if names != [] {
      var init, last := names[..|names| - 1], names[|names| - 1];
      FilledOfSomes(init);
      assert Somes(names)[..|names| - 1] == Somes(init);
      assert init + [last] == names;
    }
  }

  lemma {:induction false} FilledOfBlankTail(s: Slots, k: nat)
    ensures Filled(s + Blank(k)) == Filled(s)
  {
    if k == 0 {
      assert s + Blank(0) == s;
    } else {
      FilledOfBlankTail(s, k - 1);
      assert s + Blank(k) == (s + Blank(k - 1)) + [None];
      FilledOfPush(s + Blank(k - 1), None);
    }
  }

  /** Walking a ledger past its names meets exactly the recorded names. */
  lemma FilledOfLedger(names: seq<string>, arr: Slots, n: nat)
    requires Ledger(names, arr) && |names| <= n <= |arr|
    ensures Filled(arr[..n]) == names
  {
    hide Filled;
    assert arr[..n] == Somes(names) + Blank(n - |names|);
    FilledOfBlankTail(Somes(names), n - |names|);
    FilledOfSomes(names);
  }

  /** array_size: the entries before the first null one. */
  method ArraySize(arr: array<Option<string>>) returns (n: nat)
    requires exists i :: 0 <= i < arr.Length && arr[i] == None
    ensures n < arr.Length && arr[n] == None && forall i :: 0 <= i < n ==> arr[i].Some?
  {
    n := 0;
    while arr[n] != None
      invariant n < arr.Length
      invariant forall i :: 0 <= i < n ==> arr[i].Some?
      invariant exists i :: n <= i < arr.Length && arr[i] == None
      decreases arr.Length - n
    {
      n := n + 1;
    }
  }

  /** array_append: `size` entries of `src` are copied to `dst` from `at` on; the result is the next free place. */
  method ArrayAppend(dst: array<Option<string>>, at: nat, src: array<Option<string>>, size: nat) returns (next: nat)
    requires at + size <= dst.Length && size <= src.Length && dst != src
    modifies dst
    ensures next == at + size
    ensures dst[..at] == old(dst[..at])
    ensures dst[at..next] == src[..size]
    ensures dst[next..] == old(dst[next..])
  {
    var i := 0;
    while i < size
      invariant 0 <= i <= size
      invariant dst[..at] == old(dst[..at])
      invariant dst[at..at + i] == src[..i]
      invariant dst[at + i..] == old(dst[at + i..])
    {
      ghost var before := dst[..];
      dst[at + i] := src[i];
      assert dst[..] == before[at + i := src[i]];
      assert dst[at..at + (i + 1)] == before[at..at + i] + [src[i]];
      assert dst[at + (i + 1)..] == before[at + (i + 1)..];
      i := i + 1;
    }
    next := at + size;
  }

  /** ptr = array_append(ptr, tmp, array_size(tmp)): the names of one null-terminated list behind those of a ledger. */
  method AppendLedger(mnt: array<Option<string>>, n: nat, tmp: array<Option<string>>, ghost a: seq<string>, ghost b: seq<string>)
    returns (next: nat)
    requires mnt != tmp && n == |a| && n + |b| <= mnt.Length && |b| < tmp.Length
    requires Ledger(a, mnt[..]) && Ledger(b, tmp[..])
    modifies mnt
    ensures next == n + |b| && Ledger(a + b, mnt[..])
  {
    hide Ledger;
    LedgerPlaces(b, tmp[..]);
    assert tmp[..][|b|] == None;
    var size := ArraySize(tmp);
    LedgerEnd(b, tmp[..], size);
    assert tmp[..size] == tmp[..][..size];
    ghost var was := mnt[..];
    next := ArrayAppend(mnt, n, tmp, size);
    assert mnt[..][..n] == mnt[..n] && was[..n] == old(mnt[..n]);
    assert mnt[..][n..next] == mnt[n..next];
    assert mnt[..][next..] == mnt[next..] && was[next..] == old(mnt[next..]);
    LedgerAppend(a, was, b, mnt[..]);
  }
}
