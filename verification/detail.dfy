/** Error details are cut to a number of bytes and stay valid UTF-8: `truncate` of the
    worker, over bytes. */
module Detail {
  import Store

  type Byte = n: int | 0 <= n < 256

  const REPLACEMENT: seq<Byte> := [0xEF, 0xBF, 0xBD]

  predicate Continues(b: Byte) {
    0x80 <= b <= 0xBF
  }

  /** The bytes a character takes, by its first byte; zero if none begins with it. */
  function LeadWidth(b: Byte): nat {
    if b < 0x80 then 1
    else if 0xC2 <= b <= 0xDF then 2
    else if 0xE0 <= b <= 0xEF then 3
    else if 0xF0 <= b <= 0xF4 then 4
    else 0
  }

  /** The second byte leaves the character neither overlong, nor a surrogate, nor beyond
      the last code point. */
  predicate SecondFits(lead: Byte, second: Byte) {
    && Continues(second)
    && (lead == 0xE0 ==> 0xA0 <= second)
    && (lead == 0xED ==> second < 0xA0)
    && (lead == 0xF0 ==> 0x90 <= second)
    && (lead == 0xF4 ==> second < 0x90)
  }

  /** Every byte after the first one is as the first one demands (the table of well-formed
      sequences in section 4 of RFC 3629). */
  predicate Fits(s: seq<Byte>, w: nat)
    requires 0 < w <= |s|
  {
    && (w >= 2 ==> SecondFits(s[0], s[1]))
    && (w >= 3 ==> Continues(s[2]))
    && (w >= 4 ==> Continues(s[3]))
  }

  /** The bytes of the first character, or zero if the bytes do not begin with one. */
  function FirstWidth(s: seq<Byte>): (w: nat)
    ensures w <= |s|
  {
    if s != [] && 0 < LeadWidth(s[0]) <= |s| && Fits(s, LeadWidth(s[0])) then LeadWidth(s[0]) else 0
  }

  /** `utf8.ValidString`: whole characters and nothing else. */
  predicate Valid(s: seq<Byte>) {
    s == [] || (FirstWidth(s) > 0 && Valid(s[FirstWidth(s)..]))
  }

  /** `strings.ToValidUTF8`: each stretch of bytes that are part of no character becomes
      one replacement character. */
  function ToValid(s: seq<Byte>, replaced: bool): seq<Byte> {
    if s == [] then []
    else if FirstWidth(s) > 0 then s[..FirstWidth(s)] + ToValid(s[FirstWidth(s)..], false)
    else (if replaced then [] else REPLACEMENT) + ToValid(s[1..], true)
  }

  // ---- cuts of sequences -------------------------------------------------------------------

  /** Cutting off the beginning and cutting at `k` commute. */
  lemma CutPastFirst<T>(s: seq<T>, w: nat, k: nat)
    requires w <= k <= |s|
    ensures s[..k][w..] == s[w..][..k - w] && s[k..] == s[w..][k - w..]
  {
  }

  lemma Regroup<T>(a: seq<T>, w: nat, b: seq<T>)
    requires w <= |a|
    ensures a[..w] + (a[w..] + b) == a + b && a[..w] + a[w..] == a
  {
  }

  lemma Associate<T>(a: seq<T>, b: seq<T>, c: seq<T>)
    ensures a + (b + c) == a + b + c
  {
  }

  lemma Shorter<T>(s: seq<T>, k: nat)
    requires 0 < k <= |s|
    ensures s[..k][..k - 1] == s[..k - 1]
  {
  }

  // ---- where characters begin and end ----------------------------------------------------

  /** A first character is one whatever follows it. */
  lemma FirstWidthOfPrefix(s: seq<Byte>, k: nat)
    requires k <= |s|
    ensures FirstWidth(s[..k]) == if FirstWidth(s) <= k then FirstWidth(s) else 0
  {
    if k > 0 { assert s[..k][0] == s[0]; }
  }

  /** A character and valid bytes after it. */
  lemma ValidCons(s: seq<Byte>, w: nat, rest: seq<Byte>)
    requires w == FirstWidth(s) > 0 && Valid(rest)
    ensures Valid(s[..w] + rest)
  {
    FirstWidthOfPrefix(s, w);
    FirstWidthOfPrefix(s[..w] + rest, w);
    assert (s[..w] + rest)[..w] == s[..w] && (s[..w] + rest)[w..] == rest;
  }

  lemma ValidRest(s: seq<Byte>, w: nat)
    requires Valid(s) && s != [] && w == FirstWidth(s)
    ensures 0 < w <= 4 && Valid(s[w..])
  {
  }

  /** A prefix that holds the first character is valid exactly if it goes on so. */
  lemma PrefixPastFirst(s: seq<Byte>, w: nat, k: nat)
    requires w == FirstWidth(s) > 0 && w <= k <= |s|
    ensures Valid(s[..k]) <==> Valid(s[w..][..k - w])
  {
    FirstWidthOfPrefix(s, k);
    CutPastFirst(s, w, k);
  }

  lemma PrefixBeforeFirst(s: seq<Byte>, k: nat)
    requires 0 < k < FirstWidth(s)
    ensures !Valid(s[..k])
  {
    FirstWidthOfPrefix(s, k);
  }

  /** In valid bytes, what a valid prefix leaves over is valid too: it ends between two
      characters. */
  lemma {:induction false} ValidPrefixEndsBetween(s: seq<Byte>, k: nat)
    requires Valid(s) && k <= |s| && Valid(s[..k])
    ensures Valid(s[k..])
    decreases k
  {
    if k == 0 {
      assert s[0..] == s;
    } else {
      var w := FirstWidth(s);
      ValidRest(s, w);
      if k < w { PrefixBeforeFirst(s, k); }
      PrefixPastFirst(s, w, k);
      CutPastFirst(s, w, k);
      ValidPrefixEndsBetween(s[w..], k - w);
    }
  }

  /** Valid bytes have a valid prefix at most three bytes short of any cut. */
  lemma {:induction false} CutNearby(s: seq<Byte>, n: nat) returns (k: nat)
    requires Valid(s) && n <= |s|
    ensures k <= n < k + 4 && Valid(s[..k])
    decreases n
  {
    k := 0;
    if n > 0 {
      var w := FirstWidth(s);
      ValidRest(s, w);
      if w <= n {
        k := CutNearby(s[w..], n - w);
        k := k + w;
        PrefixPastFirst(s, w, k);
      }
    }
  }

  /** Characters side by side are valid. */
  lemma {:induction false} ValidConcat(a: seq<Byte>, b: seq<Byte>)
    requires Valid(a) && Valid(b)
    ensures Valid(a + b)
  {
    if a == [] {
      assert a + b == b;
    } else {
      var w := FirstWidth(a);
      ValidRest(a, w);
      ValidConcat(a[w..], b);
      ValidCons(a, w, a[w..] + b);
      Regroup(a, w, b);
    }
  }

  /** Whatever came in, valid bytes come out. */
  lemma {:induction false} ToValidIsValid(s: seq<Byte>, replaced: bool)
    ensures Valid(ToValid(s, replaced))
  {
    if s != [] {
      var w := FirstWidth(s);
      if w > 0 {
        ToValidIsValid(s[w..], false);
        ValidCons(s, w, ToValid(s[w..], false));
      } else {
        ToValidIsValid(s[1..], true);
        assert FirstWidth(REPLACEMENT) == 3;
        ValidConcat(if replaced then [] else REPLACEMENT, ToValid(s[1..], true));
      }
    }
  }

  /** Valid bytes are left as they are, and only those. */
  lemma {:induction false} ToValidKeepsExactly(s: seq<Byte>, replaced: bool)
    ensures Valid(s) ==> ToValid(s, replaced) == s
    ensures ToValid(s, replaced) == s ==> Valid(s)
  {
    ToValidIsValid(s, replaced);
    if s != [] && FirstWidth(s) > 0 { ToValidKeepsExactly(s[FirstWidth(s)..], false); }
  }

  /** No character begins at any of the bytes, whatever comes after them. */
  ghost predicate Stray(bad: seq<Byte>, b: seq<Byte>) {
    forall i :: 0 <= i < |bad| ==> FirstWidth((bad + b)[i..]) == 0
  }

  lemma StrayRest(bad: seq<Byte>, b: seq<Byte>)
    requires Stray(bad, b) && bad != []
    ensures (bad + b)[1..] == bad[1..] + b && FirstWidth(bad + b) == 0 && Stray(bad[1..], b)
  {
    assert (bad + b)[0..] == bad + b;
    forall i | 0 <= i < |bad| - 1 ensures FirstWidth((bad[1..] + b)[i..]) == 0 {
      assert (bad[1..] + b)[i..] == (bad + b)[i + 1..];
    }
  }

  /** After the replacement, the rest of a stretch is dropped. */
  lemma {:induction false} StraySkipped(bad: seq<Byte>, b: seq<Byte>)
    requires Stray(bad, b)
    ensures ToValid(bad + b, true) == ToValid(b, true)
  {
    if bad == [] {
      assert bad + b == b;
    } else {
      StrayRest(bad, b);
      StraySkipped(bad[1..], b);
    }
  }

  /** Whole characters are kept. */
  lemma {:induction false} CharactersKept(a: seq<Byte>, b: seq<Byte>)
    requires Valid(a)
    ensures ToValid(a + b, false) == a + ToValid(b, false)
  {
    if a == [] {
      assert a + b == b;
    } else {
      var w := FirstWidth(a);
      FirstWidthOfPrefix(a + b, |a|);
      assert (a + b)[..|a|] == a && (a + b)[..w] == a[..w] && (a + b)[w..] == a[w..] + b;
      CharactersKept(a[w..], b);
      Regroup(a, w, ToValid(b, false));
    }
  }

  /** The stray bytes between whole characters and the next character, or the end. */
  ghost predicate Stretch(bad: seq<Byte>, b: seq<Byte>) {
    bad != [] && Stray(bad, b) && (b == [] || FirstWidth(b) > 0)
  }

  lemma StretchInFront(bad: seq<Byte>, b: seq<Byte>)
    requires Stretch(bad, b)
    ensures ToValid(bad + b, false) == REPLACEMENT + ToValid(b, false)
  {
    StrayRest(bad, b);
    StraySkipped(bad[1..], b);
  }

  /** A stretch of stray bytes, however long, becomes one U+FFFD in its place, and what is
      around it stays. */
  lemma StretchBecomesOne(a: seq<Byte>, bad: seq<Byte>, b: seq<Byte>)
    requires Valid(a) && Stretch(bad, b)
    ensures ToValid(a + bad + b, false) == a + [0xEF, 0xBF, 0xBD] + ToValid(b, false)
  {
    CharactersKept(a, bad + b);
    StretchInFront(bad, b);
    Associate(a, bad, b);
    Associate(a, REPLACEMENT, ToValid(b, false));
  }

  lemma {:induction false} StretchFrom(s: seq<Byte>) returns (bad: seq<Byte>, b: seq<Byte>)
    requires s != [] && FirstWidth(s) == 0
    ensures s == bad + b && Stretch(bad, b)
  {
    if s[1..] == [] || FirstWidth(s[1..]) > 0 {
      bad, b := [s[0]], s[1..];
      assert s[0..] == s == bad + b;
    } else {
      var rest;
      rest, b := StretchFrom(s[1..]);
      bad := [s[0]] + rest;
      assert s == bad + b && s[0..] == s;
      forall i | 0 <= i < |bad| ensures FirstWidth((bad + b)[i..]) == 0 {
        if i > 0 { assert (bad + b)[i..] == (rest + b)[i - 1..]; }
      }
    }
  }

  /** Bytes that are not valid split at their first stretch. */
  lemma {:induction false} FirstStretch(s: seq<Byte>) returns (a: seq<Byte>, bad: seq<Byte>, b: seq<Byte>)
    requires !Valid(s)
    ensures s == a + bad + b && Valid(a) && Stretch(bad, b)
  {
    var w := FirstWidth(s);
    if w == 0 {
      bad, b := StretchFrom(s);
      a := [];
    } else {
      var rest;
      rest, bad, b := FirstStretch(s[w..]);
      ValidCons(s, w, rest);
      a := s[..w] + rest;
      Regroup(s, w, []);
      Associate(s[..w], rest + bad, b);
      Associate(s[..w], rest, bad);
    }
  }

  // ---- the characters behind the bytes --------------------------------------------------------

  /** UTF-8 of one character: its code point in digits of six bits. */
  function Encode(c: char): seq<Byte> {
    var n := c as int;
    if n < 0x80 then [n]
    else if n < 0x800 then [0xC0 + n / 64, 0x80 + n % 64]
    else if n < 0x1_0000 then [0xE0 + n / 64 / 64, 0x80 + n / 64 % 64, 0x80 + n % 64]
    else [0xF0 + n / 64 / 64 / 64, 0x80 + n / 64 / 64 % 64, 0x80 + n / 64 % 64, 0x80 + n % 64]
  }

  function EncodeAll(t: string): seq<Byte> {
    if t == [] then [] else Encode(t[0]) + EncodeAll(t[1..])
  }

  lemma EncodedIsCharacter(c: char)
    ensures FirstWidth(Encode(c)) == |Encode(c)| == Store.Width(c) && Valid(Encode(c))
  {
    var e := Encode(c);
    assert FirstWidth(e) == |e|;
    assert e[|e|..] == [];
  }

  lemma Digit(high: int, low: int)
    requires 0 <= low < 64
    ensures (high * 64 + low) / 64 == high && (high * 64 + low) % 64 == low
  {
  }

  lemma TwoBytes(a: int, b: int) returns (c: char)
    requires 0xC2 <= a <= 0xDF && 0x80 <= b <= 0xBF
    ensures Encode(c) == [a, b]
  {
    Digit(a - 0xC0, b - 0x80);
    c := ((a - 0xC0) * 64 + (b - 0x80)) as char;
  }

  lemma ThreeBytes(a: int, b: int, d: int) returns (c: char)
    requires 0xE0 <= a <= 0xEF && 0x80 <= b <= 0xBF && 0x80 <= d <= 0xBF
    requires (a == 0xE0 ==> 0xA0 <= b) && (a == 0xED ==> b < 0xA0)
    ensures Encode(c) == [a, b, d]
  {
    var high := (a - 0xE0) * 64 + (b - 0x80);
    Digit(a - 0xE0, b - 0x80);
    Digit(high, d - 0x80);
    c := (high * 64 + (d - 0x80)) as char;
  }

  lemma FourBytes(a: int, b: int, d: int, e: int) returns (c: char)
    requires 0xF0 <= a <= 0xF4 && 0x80 <= b <= 0xBF && 0x80 <= d <= 0xBF && 0x80 <= e <= 0xBF
    requires (a == 0xF0 ==> 0x90 <= b) && (a == 0xF4 ==> b < 0x90)
    ensures Encode(c) == [a, b, d, e]
  {
    var top := (a - 0xF0) * 64 + (b - 0x80);
    var high := top * 64 + (d - 0x80);
    Digit(a - 0xF0, b - 0x80);
    Digit(top, d - 0x80);
    Digit(high, e - 0x80);
    c := (high * 64 + (e - 0x80)) as char;
  }

  lemma CharacterIsEncoded(s: seq<Byte>) returns (c: char)
    requires FirstWidth(s) > 0
    ensures Encode(c) == s[..FirstWidth(s)]
  {
    match LeadWidth(s[0])
    case 1 => c := s[0] as char;
    case 2 => c := TwoBytes(s[0], s[1]);
    case 3 => c := ThreeBytes(s[0], s[1], s[2]);
    case _ => c := FourBytes(s[0], s[1], s[2], s[3]);
  }

  lemma {:induction false} LengthFront(c: char, t: string)
    ensures Store.Utf8Length([c] + t) == Store.Width(c) + Store.Utf8Length(t)
  {
    if t == [] {
      assert [c] + t == [c] && [c][..0] == [];
    } else {
      LengthFront(c, t[..|t| - 1]);
      assert ([c] + t)[..|t|] == [c] + t[..|t| - 1];
    }
  }

  lemma {:induction false} EncodedIsValid(t: string)
    ensures Valid(EncodeAll(t)) && |EncodeAll(t)| == Store.Utf8Length(t)
  {
    if t != [] {
      EncodedIsValid(t[1..]);
      EncodedIsCharacter(t[0]);
      ValidConcat(Encode(t[0]), EncodeAll(t[1..]));
      LengthFront(t[0], t[1..]);
      assert [t[0]] + t[1..] == t;
    }
  }

  lemma {:induction false} ValidIsEncoded(s: seq<Byte>) returns (t: string)
    requires Valid(s)
    ensures EncodeAll(t) == s
  {
    if s == [] {
      t := [];
    } else {
      var w := FirstWidth(s);
      var c := CharacterIsEncoded(s);
      t := ValidIsEncoded(s[w..]);
      Regroup(s, w, []);
      assert ([c] + t)[1..] == t;
      t := [c] + t;
    }
  }

  /** The bytes are valid exactly if they are the UTF-8 of some string. */
  lemma ValidExactly(s: seq<Byte>)
    ensures Valid(s) <==> exists t: string :: EncodeAll(t) == s
  {
    if Valid(s) {
      var t := ValidIsEncoded(s);
    }
    forall t: string ensures Valid(EncodeAll(t)) {
      EncodedIsValid(t);
    }
  }

  // ---- the cut ------------------------------------------------------------------------------

  /** `k` bytes are whole characters, and no more bytes up to `n` are. */
  ghost predicate LongestCut(s: seq<Byte>, n: nat, k: nat) {
    k <= n <= |s| && Valid(s[..k]) && forall j :: k < j <= n ==> !Valid(s[..j])
  }

  lemma LongestCutIsNear(s: seq<Byte>, n: nat, k: nat)
    requires Valid(s) && LongestCut(s, n, k)
    ensures n < k + 4 && Valid(s[k..])
  {
    var near := CutNearby(s, n);
    ValidPrefixEndsBetween(s, k);
  }

  /** The loop that drops bytes until what is left is valid. */
  method CutBack(s: seq<Byte>, n: nat) returns (r: seq<Byte>)
    requires n <= |s|
    ensures LongestCut(s, n, |r|) && r == s[..|r|]
  {
    r := s[..n];
    while !Valid(r)
      invariant |r| <= n && r == s[..|r|]
      invariant forall k :: |r| < k <= n ==> !Valid(s[..k])
      decreases |r|
    {
      Shorter(s, |r|);
      r := r[..|r| - 1];
    }
  }

  /** The stored detail: the bytes made valid if they fit, and otherwise the longest run of
      whole characters from their beginning that does, at most three bytes short of the
      limit. */
  method Truncate(s: seq<Byte>, n: nat) returns (r: seq<Byte>)
    ensures Valid(r) && |r| <= n && r <= ToValid(s, false)
    ensures |ToValid(s, false)| <= n ==> r == ToValid(s, false)
    ensures n < |ToValid(s, false)| ==>
      n < |r| + 4 && LongestCut(ToValid(s, false), n, |r|) && Valid(ToValid(s, false)[|r|..])
    ensures Valid(s) && |s| <= n ==> r == s
  {
    var valid := ToValid(s, false);
    ToValidIsValid(s, false);
    ToValidKeepsExactly(s, false);
    if |valid| <= n { return valid; }
    r := CutBack(valid, n);
    LongestCutIsNear(valid, n, |r|);
  }
}
