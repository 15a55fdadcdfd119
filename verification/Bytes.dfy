/** Octet strings, the big-endian reading of a 32-bit field, and a few facts about sequences. */
module Bytes {

  datatype Option<T> = None | Some(value: T)

  newtype byte = b: int | 0 <= b < 0x100
  type bytes = seq<byte>

  /** The byte order of the machine. */
  datatype Host = BigEndianHost | LittleEndianHost

  const TWO_31 := 0x8000_0000
  const TWO_32 := 0x1_0000_0000

  /** What `ntohl` makes of the four octets of a field in network order. */
  function Ntohl(field: bytes): nat
    requires |field| == 4
  {
    (field[0] as nat) * 0x100_0000 + (field[1] as nat) * 0x1_0000 + (field[2] as nat) * 0x100 + field[3] as nat
  }

  lemma NtohlInjective(f: bytes, g: bytes)
    requires |f| == |g| == 4 && Ntohl(f) == Ntohl(g)
    ensures f == g
  {
    assert f[0] == g[0] && f[1] == g[1] && f[2] == g[2] && f[3] == g[3];
  }

  /** The `width` low octets of `n`, the most significant one first. */
  function BigEndian(n: nat, width: nat): (s: bytes)
    ensures |s| == width
    decreases width
  {
    if width == 0 then [] else BigEndian(n / 0x100, width - 1) + [(n % 0x100) as byte]
  }

  lemma BigEndianOctets(n: nat)
    requires n < TWO_32
    ensures BigEndian(n, 4) == [(n / 0x100_0000) as byte, (n / 0x1_0000 % 0x100) as byte, (n / 0x100 % 0x100) as byte,
                                (n % 0x100) as byte]
  {
    var a, b, c := n / 0x100, n / 0x1_0000, n / 0x100_0000;
    assert BigEndian(c, 1) == [(c % 0x100) as byte];
    assert BigEndian(b, 2) == [(c % 0x100) as byte, (b % 0x100) as byte];
    assert BigEndian(a, 3) == [(c % 0x100) as byte, (b % 0x100) as byte, (a % 0x100) as byte];
  }

  lemma BigEndianRead(n: nat)
    requires n < TWO_32
    ensures Ntohl(BigEndian(n, 4)) == n
  {
    BigEndianOctets(n);
  }

  /** The four octets that `htonl` stores for `n`. */
  function Htonl(n: nat): (field: bytes)
    requires n < TWO_32
    ensures |field| == 4 && Ntohl(field) == n
  {
    BigEndianRead(n);
    BigEndian(n, 4)
  }

  /** `field[at..at + |chunk|] := chunk`, the effect of a `memcpy` inside `field`. */
  function Splice(field: bytes, at: nat, chunk: bytes): (r: bytes)
    requires at + |chunk| <= |field|
    ensures |r| == |field|
    ensures r[..at] == field[..at] && r[at..at + |chunk|] == chunk
  {
    field[..at] + chunk + field[at + |chunk|..]
  }

  lemma AppendAssociates<T>(a: seq<T>, b: seq<T>, c: seq<T>)
    ensures (a + b) + c == a + (b + c)
  {}

  lemma AppendSlices<T>(s: seq<T>, t: seq<T>, a: nat, b: nat)
    requires a <= b <= |s|
    ensures (s + t)[a..b] == s[a..b]
    ensures (s + t)[b..] == s[b..] + t
  {}

  lemma SliceOfSlice<T>(s: seq<T>, a: nat, b: nat, c: nat, d: nat)
    requires a <= b <= |s| && c <= d <= b - a
    ensures s[a..b][c..d] == s[a + c..a + d]
    ensures s[a..][c..d] == s[a + c..a + d]
  {
    var x, y := s[a..b], s[a..];
    assert |x[c..d]| == |y[c..d]| == |s[a + c..a + d]| == d - c;
    forall i | 0 <= i < d - c ensures x[c..d][i] == s[a + c..a + d][i] && y[c..d][i] == s[a + c..a + d][i] {
      assert x[c..d][i] == x[c + i] == s[a + (c + i)];
      assert y[c..d][i] == y[c + i] == s[a + (c + i)];
    }
  }

  lemma SlicesAcross<T>(x: seq<T>, y: seq<T>, a: nat, b: nat)
    requires a <= |x| <= b <= |x| + |y|
    ensures (x + y)[a..b] == x[a..] + y[..b - |x|]
    ensures (x + y)[b..] == y[b - |x|..]
  {}

  lemma SliceBehind<T>(x: seq<T>, y: seq<T>, s: seq<T>, a: nat, b: nat)
    requires a <= b <= |s|
    ensures (x + (y + s))[|x| + |y| + a..|x| + |y| + b] == s[a..b]
  {}

  /** Moving `data[pos..next]` from what is to be read to what has been read. */
  lemma MoveSlice<T>(read: seq<T>, data: seq<T>, pos: nat, next: nat)
    requires pos <= next <= |data|
    ensures (read + data[pos..next]) + data[next..] == read + data[pos..]
    ensures (read + data[pos..next])[..|read|] == read[..|read|] == read
    ensures (read + data[pos..next])[|read|..] == data[pos..next]
  {
    assert data[pos..] == data[pos..next] + data[next..];
  }

  lemma SliceOfSplice<T>(s: seq<T>, at: nat, chunk: seq<T>, r: seq<T>)
    requires |r| == |s| && at + |chunk| <= |s| && r[..at] == s[..at] && r[at..at + |chunk|] == chunk
    ensures r[..at + |chunk|] == s[..at] + chunk
  {
    assert r[..at + |chunk|] == r[..at] + r[at..at + |chunk|];
  }

  function Flatten(parts: seq<bytes>): bytes {
    if parts == [] then [] else parts[0] + Flatten(parts[1..])
  }

  lemma {:induction false} FlattenAppend(a: seq<bytes>, b: seq<bytes>)
    ensures Flatten(a + b) == Flatten(a) + Flatten(b)
  {
    if a == [] {
      assert a + b == b;
    } else {
      assert (a + b)[1..] == a[1..] + b;
      FlattenAppend(a[1..], b);
    }
  }

  lemma FlattenSnoc(a: seq<bytes>, x: bytes)
    ensures Flatten(a + [x]) == Flatten(a) + x
  {
    FlattenAppend(a, [x]);
    assert [x][1..] == [];
  }
}
