/** Helpers of src/lib/tools.ts: id formatting, grouping and base64 of a buffer. */
module Tools {
  import opened Wrappers
  import opened Base64

  // ---------------------------------------------------------------- createRandomId

  predicate IsHexDigit(c: char) {
    '0' <= c <= '9' || 'a' <= c <= 'f'
  }

  function HexDigit(d: int): (c: char)
    requires 0 <= d < 16
    ensures IsHexDigit(c)
  {
    if d < 10 then ('0' as int + d) as char else ('a' as int + d - 10) as char
  }

  function HexValue(c: char): (d: int)
    requires IsHexDigit(c)
    ensures 0 <= d < 16 && HexDigit(d) == c
  {
    if c <= '9' then c as int - '0' as int else c as int - 'a' as int + 10
  }

  /** `n.toString(16)`: lowercase hexadecimal without leading zeros. */
  function ToHex(n: nat): string
    decreases n
  {
    if n < 16 then [HexDigit(n)] else ToHex(n / 16) + [HexDigit(n % 16)]
  }

  /** The value of a string of hexadecimal digits, most significant first. */
  function ParseHex(s: string): nat
    requires forall i :: 0 <= i < |s| ==> IsHexDigit(s[i])
  {
    if s == [] then 0 else ParseHex(s[..|s| - 1]) * 16 + HexValue(s[|s| - 1])
  }

  function Pow16(k: nat): nat {
    if k == 0 then 1 else 16 * Pow16(k - 1)
  }

  lemma {:induction false} ToHexDigits(n: nat)
    ensures |ToHex(n)| >= 1
    ensures forall i :: 0 <= i < |ToHex(n)| ==> IsHexDigit(ToHex(n)[i])
    ensures ParseHex(ToHex(n)) == n
    ensures |ToHex(n)| > 1 ==> ToHex(n)[0] != '0'
    decreases n
  {
    if n >= 16 {
      ToHexDigits(n / 16);
      var s := ToHex(n);
      assert s[..|s| - 1] == ToHex(n / 16);
      assert s[0] == ToHex(n / 16)[0];
      if |ToHex(n / 16)| == 1 {
        assert n / 16 > 0;
      }
    }
  }

  lemma {:induction false} ToHexLength(n: nat, k: nat)
    requires 1 <= k && n < Pow16(k)
    ensures |ToHex(n)| <= k
    decreases k
  {
    if n >= 16 {
      assert k > 1;
      ToHexLength(n / 16, k - 1);
    }
  }

  const Uint32Limit: nat := 0x1_0000_0000

  /** The id text `createRandomId` makes from the random unsigned 32-bit value
      it draws (the value is passed in). */
  function CreateRandomId(value: nat): (id: string)
    requires value < Uint32Limit
    ensures 1 <= |id| <= 8
    ensures forall i :: 0 <= i < |id| ==> IsHexDigit(id[i])
    ensures |id| > 1 ==> id[0] != '0'
    ensures ParseHex(id) == value
  {
    ToHexDigits(value);
    assert Pow16(8) == Uint32Limit;
    ToHexLength(value, 8);
    ToHex(value)
  }

  // ---------------------------------------------------------------- groupBy

  /** The elements among the first `n` whose key is `k`, in array order. */
  function Members<T>(a: seq<T>, key: (T, nat, seq<T>) -> string, n: nat, k: string): seq<T>
    requires n <= |a|
  {
    if n == 0 then []
    else Members(a, key, n - 1, k) + (if key(a[n - 1], n - 1, a) == k then [a[n - 1]] else [])
  }

  function KeysOf<T>(a: seq<T>, key: (T, nat, seq<T>) -> string, n: nat): set<string>
    requires n <= |a|
  {
    set i | 0 <= i < n :: key(a[i], i, a)
  }

  lemma {:induction false} MembersOfAbsentKey<T>(a: seq<T>, key: (T, nat, seq<T>) -> string, n: nat, k: string)
    requires n <= |a| && k !in KeysOf(a, key, n)
    ensures Members(a, key, n, k) == []
  {
    if n > 0 {
      assert KeysOf(a, key, n - 1) <= KeysOf(a, key, n);
      MembersOfAbsentKey(a, key, n - 1, k);
    }
  }

  /** The number of elements held by the groups under `keys`. */
  ghost function TotalSize<T>(groups: map<string, seq<T>>, keys: set<string>): nat
    requires keys <= groups.Keys
    decreases keys
  {
    if keys == {} then 0
    else
      var k :| k in keys;
      |groups[k]| + TotalSize(groups, keys - {k})
  }

  lemma {:induction false} TotalSizeSplit<T>(groups: map<string, seq<T>>, keys: set<string>, k: string)
    requires keys <= groups.Keys && k in keys
    ensures TotalSize(groups, keys) == |groups[k]| + TotalSize(groups, keys - {k})
    decreases keys
  {
    var j :| j in keys && TotalSize(groups, keys) == |groups[j]| + TotalSize(groups, keys - {j});
    if j != k {
      TotalSizeSplit(groups, keys - {j}, k);
      TotalSizeSplit(groups, keys - {k}, j);
      assert keys - {j} - {k} == keys - {k} - {j};
    }
  }

  /** The total only depends on the groups under `keys`. */
  lemma {:induction false} TotalSizeFrame<T>(g1: map<string, seq<T>>, g2: map<string, seq<T>>, keys: set<string>)
    requires keys <= g1.Keys && keys <= g2.Keys
    requires forall k :: k in keys ==> g1[k] == g2[k]
    ensures TotalSize(g1, keys) == TotalSize(g2, keys)
    decreases keys
  {
    if keys != {} {
      var k :| k in keys;
      TotalSizeSplit(g1, keys, k);
      TotalSizeSplit(g2, keys, k);
      TotalSizeFrame(g1, g2, keys - {k});
    }
  }

  /** Pushing one element onto a group, new or existing, adds one to the total. */
  lemma PushAddsOne<T>(groups: map<string, seq<T>>, k: string, x: T, pushed: map<string, seq<T>>)
    requires pushed == groups[k := (if k in groups then groups[k] else []) + [x]]
    ensures pushed.Keys == groups.Keys + {k}
    ensures TotalSize(pushed, pushed.Keys) == TotalSize(groups, groups.Keys) + 1
  {
    var rest := pushed.Keys - {k};
    TotalSizeSplit(pushed, pushed.Keys, k);
    assert forall j :: j in rest ==> pushed[j] == groups[j];
    TotalSizeFrame(pushed, groups, rest);
    if k in groups {
      TotalSizeSplit(groups, groups.Keys, k);
      assert rest == groups.Keys - {k};
    } else {
      assert rest == groups.Keys;
    }
  }

  /** Pushing the element at `i` onto the group of its key turns the grouping
      of the first `i` elements into that of the first `i + 1`. */
  lemma PushKeepsGrouping<T>(a: seq<T>, key: (T, nat, seq<T>) -> string, i: nat,
                             groups: map<string, seq<T>>, pushed: map<string, seq<T>>)
    requires i < |a|
    requires groups.Keys == KeysOf(a, key, i)
    requires forall k :: k in groups ==> groups[k] == Members(a, key, i, k)
    requires var k := key(a[i], i, a);
      pushed == groups[k := (if k in groups then groups[k] else []) + [a[i]]]
    ensures pushed.Keys == KeysOf(a, key, i + 1)
    ensures forall k :: k in pushed ==> pushed[k] == Members(a, key, i + 1, k)
  {
    var k := key(a[i], i, a);
    if k !in groups {
      MembersOfAbsentKey(a, key, i, k);
    }
    assert KeysOf(a, key, i + 1) == KeysOf(a, key, i) + {k};
  }

  /** `groupBy`: the reduce that pushes each element onto the group of its key. */
  method GroupBy<T>(a: seq<T>, key: (T, nat, seq<T>) -> string) returns (groups: map<string, seq<T>>)
    ensures groups.Keys == KeysOf(a, key, |a|)
    ensures forall k :: k in groups ==> groups[k] == Members(a, key, |a|, k)
    ensures TotalSize(groups, groups.Keys) == |a|
  {
    groups := map[];
    var i := 0;
    while i < |a|
      invariant 0 <= i <= |a|
      invariant groups.Keys == KeysOf(a, key, i)
      invariant forall k :: k in groups ==> groups[k] == Members(a, key, i, k)
      invariant TotalSize(groups, groups.Keys) == i
    {
      var k := key(a[i], i, a);
      var group := if k in groups then groups[k] else [];
      var pushed := groups[k := group + [a[i]]];
      PushAddsOne(groups, k, a[i], pushed);
      PushKeepsGrouping(a, key, i, groups, pushed);
      groups := pushed;
      i := i + 1;
    }
  }

  /** Each element lands in the group of its own key, after the elements of
      that group that precede it. */
  lemma {:induction false} MembersPlacement<T>(a: seq<T>, key: (T, nat, seq<T>) -> string, n: nat, i: nat)
    requires i < n <= |a|
    ensures a[i] in Members(a, key, n, key(a[i], i, a))
    ensures Members(a, key, i + 1, key(a[i], i, a)) == Members(a, key, i, key(a[i], i, a)) + [a[i]]
    ensures |Members(a, key, i + 1, key(a[i], i, a))| <= |Members(a, key, n, key(a[i], i, a))|
    decreases n
  {
    if n > i + 1 {
      MembersPlacement(a, key, n - 1, i);
    }
  }

  // ---------------------------------------------------------------- arrayBufferToBase64

  /** `arrayBufferToBase64`: one character per byte, then `btoa`. */
  method ArrayBufferToBase64(bytes: seq<byte>) returns (s: string)
    ensures s == Encode(bytes)
    ensures |s| == (|bytes| + 2) / 3 * 4
    ensures Decode(s) == Some(bytes)
  {
    var binary := "";
    var i := 0;
    while i < |bytes|
      invariant 0 <= i <= |bytes|
      invariant |binary| == i
      invariant forall k :: 0 <= k < i ==> binary[k] as int == bytes[k]
    {
      binary := binary + [bytes[i] as char];
      i := i + 1;
    }
    assert Latin1Bytes(binary) == bytes;
    s := Btoa(binary);
    EncodeLength(bytes);
    DecodeEncode(bytes);
  }
}
