/** C strings: the characters of a buffer up to its first NUL, and the library calls that use them. */
module CStrings {

  const NUL: char := '\0'

  predicate NulFree(s: string) {
    forall k :: 0 <= k < |s| ==> s[k] != NUL
  }

  /** The C string a buffer holds. */
  function CString(s: string): string {
    if s == [] || s[0] == NUL then [] else [s[0]] + CString(s[1..])
  }

  /** It is the longest prefix without a NUL. */
  lemma {:induction false} CStringIsPrefix(s: string)
    ensures CString(s) <= s && NulFree(CString(s))
    ensures |CString(s)| < |s| ==> s[|CString(s)|] == NUL
    ensures NulFree(s) <==> CString(s) == s
  {
    if s != [] && s[0] != NUL {
      CStringIsPrefix(s[1..]);
      assert s == [s[0]] + s[1..];
      if NulFree(s) {
        assert NulFree(s[1..]);
      } else {
        var k :| 0 <= k < |s| && s[k] == NUL;
        assert s[1..][k - 1] == NUL;
      }
    }
  }

  /** A NUL right after n other characters ends the string there. */
  lemma {:induction false} CStringStopsAt(s: string, n: nat)
    requires n <= |s| && NulFree(s[..n]) && (n < |s| ==> s[n] == NUL)
    ensures CString(s) == s[..n]
  {
    if n > 0 {
      assert s[0] == s[..n][0] && s[1..][..n - 1] == s[..n][1..];
      CStringStopsAt(s[1..], n - 1);
      assert s[..n] == [s[0]] + s[1..][..n - 1];
    }
  }

  /** A NUL behind a buffer adds nothing to its C string. */
  lemma CStringPadded(s: string, pad: string)
    requires pad != "" && pad[0] == NUL
    ensures CString(s + pad) == CString(s)
  {
    CStringIsPrefix(s);
    var n := |CString(s)|;
    assert (s + pad)[..n] == s[..n];
    CStringStopsAt(s + pad, n);
  }

  /** bzero on the first n cells. */
  method Bzero(a: array<char>, n: nat)
    requires n <= a.Length
    modifies a
    ensures forall k :: 0 <= k < n ==> a[k] == NUL
    ensures forall k :: n <= k < a.Length ==> a[k] == old(a[k])
  {
    forall k | 0 <= k < n {
      a[k] := NUL;
    }
  }

  /** strcat: the destination must have room for both strings and a NUL. */
  method Strcat(dst: array<char>, src: string)
    requires NulFree(src) && |CString(dst[..])| + |src| < dst.Length
    modifies dst
    ensures CString(dst[..]) == CString(old(dst[..])) + src
    ensures forall k :: |CString(dst[..])| < k < dst.Length ==> dst[k] == old(dst[k])
  {
    CStringIsPrefix(dst[..]);
    var n := |CString(dst[..])|;
    ghost var head := CString(dst[..]);
    assert head == dst[..n];
    forall k | 0 <= k < |src| {
      dst[n + k] := src[k];
    }
    dst[n + |src|] := NUL;
    assert dst[..n + |src|] == head + src;
    assert dst[..][..n + |src|] == dst[..n + |src|];
    CStringStopsAt(dst[..], n + |src|);
  }

  /** strcpy, into a buffer with room for the string and its NUL. */
  method Strcpy(dst: array<char>, src: string)
    requires NulFree(src) && |src| < dst.Length
    modifies dst
    ensures dst[..|src|] == src && dst[|src|] == NUL
    ensures CString(dst[..]) == src
    ensures forall k :: |src| < k < dst.Length ==> dst[k] == old(dst[k])
  {
    forall k | 0 <= k < |src| {
      dst[k] := src[k];
    }
    dst[|src|] := NUL;
    assert dst[..][..|src|] == src;
    CStringStopsAt(dst[..], |src|);
  }
}
