/** The key-name registry: the normal form of a name, and the two indexes kept in step. */
module KeyNames {
  import opened BigEndian

  const NAME_BYTES := 32
  const SPACE: byte := 0x20
  const UNDERSCORE: byte := 0x5F
  const DOT: byte := 0x2E
  const DASH: byte := 0x2D

  type Text = seq<byte>

  /** A fixed array of 32 bytes, zero-padded. */
  type Name = s: seq<byte> | |s| == NAME_BYTES witness Padding(NAME_BYTES)

  function Padding(n: nat): (s: Text)
    ensures |s| == n
  {
    seq(n, _ => 0)
  }

  const Blank: Name := Padding(NAME_BYTES)

  // ---- The normal form ----

  /** What stands before the first zero byte. */
  function TextOf(s: Text): (r: Text)
    ensures |r| <= |s|
  {
    if s == [] || s[0] == 0 then [] else [s[0]] + TextOf(s[1..])
  }

  lemma {:induction false} TextOfIs(s: Text)
    ensures TextOf(s) == s[..|TextOf(s)|] && NoZero(TextOf(s))
    ensures |TextOf(s)| < |s| ==> s[|TextOf(s)|] == 0
  {
    if s != [] && s[0] != 0 { TextOfIs(s[1..]); }
  }

  function Joined(b: byte): byte { if b == SPACE then UNDERSCORE else b }

  function JoinWords(s: Text): (r: Text)
    ensures |r| == |s|
  {
    seq(|s|, i requires 0 <= i < |s| => Joined(s[i]))
  }

  predicate AllUnderscores(s: Text, lo: nat, hi: nat)
    requires lo <= hi <= |s|
  {
    forall i :: lo <= i < hi ==> s[i] == UNDERSCORE
  }

  /** The end of the run of underscores that starts at `i`. */
  function Lead(s: Text, i: nat): (b: nat)
    requires i <= |s|
    ensures i <= b <= |s|
    decreases |s| - i
  {
    if i < |s| && s[i] == UNDERSCORE then Lead(s, i + 1) else i
  }

  lemma {:induction false} LeadIs(s: Text, i: nat)
    requires i <= |s|
    ensures AllUnderscores(s, i, Lead(s, i)) && (Lead(s, i) < |s| ==> s[Lead(s, i)] != UNDERSCORE)
    decreases |s| - i
  {
    if i < |s| && s[i] == UNDERSCORE { LeadIs(s, i + 1); }
  }

  /** The start of the run of underscores that ends at `n`, not before `b`. */
  function Trail(s: Text, b: nat, n: nat): (e: nat)
    requires b <= n <= |s|
    ensures b <= e <= n
  {
    if n > b && s[n - 1] == UNDERSCORE then Trail(s, b, n - 1) else n
  }

  lemma {:induction false} TrailIs(s: Text, b: nat, n: nat)
    requires b <= n <= |s|
    ensures AllUnderscores(s, Trail(s, b, n), n) && (Trail(s, b, n) > b ==> s[Trail(s, b, n) - 1] != UNDERSCORE)
  {
    if n > b && s[n - 1] == UNDERSCORE { TrailIs(s, b, n - 1); }
  }

  function Trim(s: Text): (r: Text)
    ensures |r| <= |s|
  {
    var b := Lead(s, 0);
    s[b..Trail(s, b, |s|)]
  }

  function Padded(s: Text): Name
    requires |s| <= NAME_BYTES
  {
    s + Padding(NAME_BYTES - |s|)
  }

  /** The text of the normal form. */
  function Canonical(t: Text): (r: Text)
    ensures |r| <= |t|
  {
    Trim(JoinWords(t))
  }

  function Normal(name: Name): Name
  {
    Padded(Canonical(TextOf(name)))
  }

  /** A name in normal form: no space, no boundary underscore, nothing after the text. */
  predicate IsNormal(name: Name)
  {
    var t := TextOf(name);
    name == Padded(t) && Spaceless(t) && Bounded(t)
  }

  predicate Spaceless(t: Text)
  {
    forall i :: 0 <= i < |t| ==> t[i] != SPACE
  }

  predicate Bounded(t: Text)
  {
    t != [] ==> t[0] != UNDERSCORE && t[|t| - 1] != UNDERSCORE
  }

  predicate NoZero(t: Text)
  {
    forall i :: 0 <= i < |t| ==> t[i] != 0
  }

  lemma {:induction false} TextOfPadded(t: Text, n: nat)
    requires NoZero(t)
    ensures TextOf(t + Padding(n)) == t
  {
    if t != [] {
      assert (t + Padding(n))[1..] == t[1..] + Padding(n);
      TextOfPadded(t[1..], n);
    }
  }

  lemma CanonicalText(t: Text)
    requires NoZero(t)
    ensures NoZero(Canonical(t)) && Spaceless(Canonical(t)) && Bounded(Canonical(t))
  {
    var joined := JoinWords(t);
    assert NoZero(joined) && Spaceless(joined);
    var b, e := TrimIsExact(joined);
  }

  /** Trimming takes only underscores, and all of them. */
  lemma TrimIsExact(s: Text) returns (b: nat, e: nat)
    ensures b <= e <= |s| && Trim(s) == s[b..e] && Bounded(Trim(s))
    ensures AllUnderscores(s, 0, b) && AllUnderscores(s, e, |s|)
  {
    b := Lead(s, 0);
    e := Trail(s, b, |s|);
    LeadIs(s, 0);
    TrailIs(s, b, |s|);
  }

  lemma CanonicalFixed(t: Text)
    requires Spaceless(t) && Bounded(t)
    ensures Canonical(t) == t
  {
    assert JoinWords(t) == t;
  }

  lemma NormalText(name: Name)
    ensures TextOf(Normal(name)) == Canonical(TextOf(name))
  {
    var t := Canonical(TextOf(name));
    TextOfIs(name);
    CanonicalText(TextOf(name));
    TextOfPadded(t, NAME_BYTES - |t|);
  }

  /** The fixed points are exactly the names in normal form. */
  lemma FixedPoints(name: Name)
    ensures Normal(name) == name <==> IsNormal(name)
  {
    var t := TextOf(name);
    if IsNormal(name) {
      CanonicalFixed(t);
    } else if Normal(name) == name {
      NormalText(name);
      TextOfIs(name);
      CanonicalText(t);
    }
  }

  lemma Idempotent(name: Name)
    ensures IsNormal(Normal(name)) && Normal(Normal(name)) == Normal(name)
  {
    NormalText(name);
    TextOfIs(name);
    CanonicalText(TextOf(name));
    FixedPoints(Normal(name));
  }

  /** Two names are one exactly when their joined and trimmed texts agree. */
  lemma SameName(a: Name, b: Name)
    ensures Normal(a) == Normal(b) <==> Canonical(TextOf(a)) == Canonical(TextOf(b))
  {
    NormalText(a);
    NormalText(b);
  }

  method Normalize(name: Name) returns (out: Name)
    ensures out == Normal(name)
  {
    var len := 0;
    while len < |name| && name[len] != 0
      invariant 0 <= len <= |name| && NoZero(name[..len])
    {
      len := len + 1;
    }
    TextLength(name, len);
    var mapped := Mapped(name, len);
    var begin, end := Bounds(mapped, len);
    out := Shifted(mapped, begin, end);
  }

  method Mapped(name: Name, len: nat) returns (mapped: array<byte>)
    requires len <= NAME_BYTES
    ensures mapped.Length == NAME_BYTES && mapped[..len] == JoinWords(name[..len])
  {
    mapped := new byte[NAME_BYTES](_ => 0);
    for i := 0 to len
      invariant forall k :: 0 <= k < i ==> mapped[k] == Joined(name[k])
    {
      mapped[i] := if name[i] == SPACE then UNDERSCORE else name[i];
    }
  }

  method Bounds(mapped: array<byte>, len: nat) returns (begin: nat, end: nat)
    requires len <= mapped.Length
    ensures begin <= end <= len && mapped[begin..end] == Trim(mapped[..len])
  {
    begin, end := 0, len;
    ghost var s := mapped[..len];
    while begin < end && mapped[begin] == UNDERSCORE
      invariant begin <= end == len && Lead(s, 0) == Lead(s, begin)
    {
      begin := begin + 1;
    }
    while end > begin && mapped[end - 1] == UNDERSCORE
      invariant begin <= end <= len && Trail(s, begin, len) == Trail(s, begin, end)
    {
      end := end - 1;
    }
    assert s[begin..end] == mapped[begin..end];
  }

  method Shifted(mapped: array<byte>, begin: nat, end: nat) returns (out: Name)
    requires begin <= end <= mapped.Length == NAME_BYTES
    ensures out == Padded(mapped[begin..end])
  {
    var result := new byte[NAME_BYTES](_ => 0);
    for i := begin to end
      invariant forall k :: 0 <= k < i - begin ==> result[k] == mapped[begin + k]
      invariant forall k :: i - begin <= k < NAME_BYTES ==> result[k] == 0
    {
      result[i - begin] := mapped[i];
    }
    out := result[..];
  }

  lemma {:induction false} TextLength(s: Text, n: nat)
    requires n <= |s| && NoZero(s[..n]) && (n < |s| ==> s[n] == 0)
    ensures TextOf(s) == s[..n]
  {
    if n > 0 {
      assert s[0] == s[..n][0];
      assert s[1..][..n - 1] == s[..n][1..];
      TextLength(s[1..], n - 1);
    }
  }

  // ---- Valid names ----

  /** The bytes that break a path, a URL or a file system. */
  const Bad: set<byte> := {
    0x2F, 0x5C, 0x3A, 0x2A, 0x3F, 0x22, 0x3C, 0x3E, 0x7C, 0x23, 0x25, 0x26, 0x7B, 0x7D, 0x5B, 0x5D,
    0x5E, 0x7E, 0x3B, 0x40, 0x3D, 0x2B, 0x2C, 0x60, 0x27, 0x28, 0x29, 0x24, 0x21}

  predicate Acceptable(t: Text)
  {
    forall i :: 0 <= i < |t| ==> t[i] >= 0x20 && t[i] !in Bad
  }

  predicate IsValid(name: Name)
  {
    var t := TextOf(name);
    && t != [] && name == Padded(t)
    && t[0] != DOT && t[0] != DASH && t[0] != UNDERSCORE
    && Acceptable(t)
  }

  method ValidName(name: Name) returns (ok: bool)
    ensures ok == IsValid(name)
  {
    if name[0] == 0 { return false; }
    if name[0] == DOT || name[0] == DASH || name[0] == UNDERSCORE { return false; }
    var ended := false;
    ghost var len := 0;
    for i := 0 to |name|
      invariant len <= i && NoZero(name[..len]) && (ended <==> len < i)
      invariant forall k :: len <= k < i ==> name[k] == 0
      invariant Acceptable(name[..len])
      invariant i > 0 ==> len > 0
    {
      var b := name[i];
      if b == 0 {
        ended := true;
      } else {
        if ended {
          TextLength(name, len);
          assert name[i] != Padded(name[..len])[i];
          return false;
        }
        if b < 0x20 || (b < 0x80 && b in Bad) {
          InText(name, i);
          return false;
        }
        len := i + 1;
      }
    }
    TextLength(name, len);
    assert name == Padded(name[..len]);
    ok := true;
  }

  lemma InText(name: Name, i: nat)
    requires i < NAME_BYTES && NoZero(name[..i]) && name[i] != 0
    ensures i < |TextOf(name)| && TextOf(name)[i] == name[i]
  {
    assert name[..i + 1][i] == name[i];
    TextCovers(name, i + 1);
    TextOfIs(name);
  }

  lemma {:induction false} TextCovers(s: Text, n: nat)
    requires n <= |s| && NoZero(s[..n])
    ensures n <= |TextOf(s)|
  {
    if n > 0 {
      assert s[0] == s[..n][0];
      assert s[1..][..n - 1] == s[..n][1..];
      TextCovers(s[1..], n - 1);
    }
  }
}
