/** Go strings are byte sequences: `len(s)` counts bytes and `s[:n]` keeps
    the first n bytes. A Dafny `string` is a sequence of Unicode scalar
    values, so lengths and prefixes of provider data are measured here in
    the bytes of its UTF-8 encoding. */
module Utf8 {
  import opened Wrappers

  /** The number of bytes UTF-8 uses for one character. */
  function Width(c: char): (n: nat)
    ensures 1 <= n <= 4
    ensures n == 1 <==> c as int < 0x80
  {
    if c as int < 0x80 then 1
    else if c as int < 0x800 then 2
    else if c as int < 0x1_0000 then 3
    else 4
  }

  /** Go's `len` of the string: its length in UTF-8 bytes. */
  function ByteLen(s: string): nat
    decreases s
  {
    if s == [] then 0 else Width(s[0]) + ByteLen(s[1..])
  }

  predicate IsAscii(s: string) {
    forall i :: 0 <= i < |s| ==> s[i] as int < 0x80
  }

  /** The prefix of `s` that is exactly its first `n` bytes, or None when
      byte n falls inside a multi-byte character or `s` is shorter. */
  function BytePrefix(s: string, n: nat): Option<string>
    decreases s
  {
    if n == 0 then Some("")
    else if s == [] || Width(s[0]) > n then None
    else match BytePrefix(s[1..], n - Width(s[0]))
      case None => None
      case Some(p) => Some([s[0]] + p)
  }

  lemma {:induction false} ByteLenAtLeastLength(s: string)
    ensures ByteLen(s) >= |s|
    ensures ByteLen(s) == |s| <==> IsAscii(s)
    decreases s
  {
    if s != [] {
      ByteLenAtLeastLength(s[1..]);
      assert IsAscii(s) <==> s[0] as int < 0x80 && IsAscii(s[1..]) by {
        assert forall i :: 1 <= i < |s| ==> s[i] == s[1..][i - 1];
      }
    }
  }

  /** A string is as long in bytes as in characters exactly when it is
      ASCII; otherwise it is longer. */
  lemma AsciiByteLen(s: string)
    ensures ByteLen(s) >= |s|
    ensures ByteLen(s) == |s| <==> IsAscii(s)
  {
    ByteLenAtLeastLength(s);
  }

  lemma {:induction false} BytePrefixIsPrefix(s: string, n: nat)
    requires BytePrefix(s, n).Some?
    ensures ByteLen(BytePrefix(s, n).value) == n
    ensures BytePrefix(s, n).value <= s
    decreases s
  {
    if n > 0 {
      BytePrefixIsPrefix(s[1..], n - Width(s[0]));
      var p := BytePrefix(s[1..], n - Width(s[0])).value;
      assert ([s[0]] + p)[1..] == p;
    }
  }

  lemma {:induction false} BytePrefixOfAscii(s: string, n: nat)
    requires n <= |s| && IsAscii(s[..n])
    ensures BytePrefix(s, n) == Some(s[..n])
    decreases s
  {
    if n > 0 {
      assert s[0] == s[..n][0];
      assert s[1..][..n - 1] == s[..n][1..];
      assert IsAscii(s[1..][..n - 1]) by {
        assert forall i :: 0 <= i < n - 1 ==> s[..n][1..][i] == s[..n][i + 1];
      }
      BytePrefixOfAscii(s[1..], n - 1);
      assert [s[0]] + s[1..][..n - 1] == s[..n];
    }
  }

  /** Byte prefixes: when it exists, the prefix holds exactly n bytes and
      starts `s`; over ASCII text it is the first n characters. */
  lemma BytePrefixSpec(s: string, n: nat)
    ensures BytePrefix(s, n).Some? ==> ByteLen(BytePrefix(s, n).value) == n && BytePrefix(s, n).value <= s
    ensures n <= |s| && IsAscii(s[..n]) ==> BytePrefix(s, n) == Some(s[..n])
  {
    if BytePrefix(s, n).Some? {
      BytePrefixIsPrefix(s, n);
    }
    if n <= |s| && IsAscii(s[..n]) {
      BytePrefixOfAscii(s, n);
    }
  }
}
