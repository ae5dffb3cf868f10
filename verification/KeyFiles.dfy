/** The filesystem backend: keys become portable file names by percent-encoding,
    and List rebuilds sorted keys from the names it finds. */
module KeyFiles {
  import opened Wrappers
  import opened Lex
  import opened Segments

  const EXT := ".enc"
  const UPPER_HEX := "0123456789ABCDEF"

  /** Bytes a segment may not carry in a file name. */
  predicate Reserved(c: char) {
    c in "<>:\"\\|?*" || c < 0x20 as char
  }

  function Unhex(c: char): int {
    if '0' <= c <= '9' then c as int - '0' as int
    else if 'A' <= c <= 'F' then c as int - 'A' as int + 10
    else if 'a' <= c <= 'f' then c as int - 'a' as int + 10
    else -1
  }

  predicate NeedsEscape(c: char) {
    c == '%' || Reserved(c)
  }

  function EscapeByte(c: char): string {
    if NeedsEscape(c) then ['%', UPPER_HEX[c as int / 16], UPPER_HEX[c as int % 16]] else [c]
  }

  /** The encoding of a string, byte by byte. */
  function Escaped(s: string): string {
    if s == "" then "" else EscapeByte(s[0]) + Escaped(s[1..])
  }

  predicate EscapeAt(s: string) {
    |s| > 2 && s[0] == '%' && Unhex(s[1]) >= 0 && Unhex(s[2]) >= 0
  }

  function Unescaped(s: string): string {
    if s == "" then ""
    else if EscapeAt(s) then [(Unhex(s[1]) * 16 + Unhex(s[2])) as char] + Unescaped(s[3..])
    else [s[0]] + Unescaped(s[1..])
  }

  method EncodeSegment(seg: string) returns (out: string)
    ensures out == Escaped(seg)
  {
    var needs := false;
    var i := 0;
    while i < |seg|
      invariant 0 <= i <= |seg|
      invariant !needs
      invariant forall j :: 0 <= j < i ==> !NeedsEscape(seg[j])
    {
      if NeedsEscape(seg[i]) {
        needs := true;
        break;
      }
      i := i + 1;
    }
    if !needs {
      PlainEscaped(seg);
      return seg;
    }
    out := "";
    i := 0;
    assert seg[..0] == "";
    assert Escaped("") == "";
    hide Escaped;
    while i < |seg|
      invariant 0 <= i <= |seg|
      invariant out == Escaped(seg[..i])
    {
      var c := seg[i];
      EscapedLast(seg[..i], c);
      assert seg[..i + 1] == seg[..i] + [c];
      if NeedsEscape(c) {
        out := out + ['%', UPPER_HEX[c as int / 16], UPPER_HEX[c as int % 16]];
      } else {
        out := out + [c];
      }
      i := i + 1;
    }
    assert seg[..i] == seg;
  }

  lemma {:induction false} EscapedLast(s: string, c: char)
    ensures Escaped(s + [c]) == Escaped(s) + EscapeByte(c)
  {
    hide EscapeByte;
    if s == "" {
      assert s + [c] == [c] && [c][1..] == "";
      assert EscapeByte(c) + "" == EscapeByte(c);
    } else {
      EscapedLast(s[1..], c);
      assert (s + [c])[1..] == s[1..] + [c];
      assert EscapeByte(s[0]) + (Escaped(s[1..]) + EscapeByte(c)) == EscapeByte(s[0]) + Escaped(s[1..]) + EscapeByte(c);
    }
  }

  lemma {:induction false} PlainEscaped(s: string)
    requires forall j :: 0 <= j < |s| ==> !NeedsEscape(s[j])
    ensures Escaped(s) == s
  {
    if s != "" {
      PlainEscaped(s[1..]);
      assert [s[0]] + s[1..] == s;
    }
  }

  lemma {:induction false} PlainUnescaped(s: string)
    requires '%' !in s
    ensures Unescaped(s) == s
  {
    if s != "" {
      PlainUnescaped(s[1..]);
      assert [s[0]] + s[1..] == s;
    }
  }

  method DecodeSegment(seg: string) returns (out: string)
    ensures out == Unescaped(seg)
  {
    if '%' !in seg {
      PlainUnescaped(seg);
      return seg;
    }
    out := "";
    var i := 0;
    while i < |seg|
      invariant 0 <= i <= |seg|
      invariant out + Unescaped(seg[i..]) == Unescaped(seg)
    {
      var rest := seg[i..];
      if seg[i] == '%' && i + 2 < |seg| {
        var hi, lo := Unhex(seg[i + 1]), Unhex(seg[i + 2]);
        if hi >= 0 && lo >= 0 {
          assert EscapeAt(rest) && rest[3..] == seg[i + 3..];
          assert out + ([(hi * 16 + lo) as char] + Unescaped(rest[3..])) == out + [(hi * 16 + lo) as char] + Unescaped(rest[3..]);
          out := out + [(hi * 16 + lo) as char];
          i := i + 3;
          continue;
        }
      }
      assert rest[1..] == seg[i + 1..];
      assert out + ([seg[i]] + Unescaped(rest[1..])) == out + [seg[i]] + Unescaped(rest[1..]);
      out := out + [seg[i]];
      i := i + 1;
    }
    assert out + "" == out;
  }

  /** Decoding undoes encoding, for every string. */
  lemma {:induction false} UnescapeEscape(s: string)
    ensures Unescaped(Escaped(s)) == s
  {
    if s != "" {
      UnescapeEscape(s[1..]);
      assert Escaped(s) == EscapeByte(s[0]) + Escaped(s[1..]);
      hide *;
      UnescapeByte(s[0], Escaped(s[1..]));
      assert [s[0]] + s[1..] == s;
    }
  }

  lemma {:induction false} UnescapeByte(c: char, rest: string)
    ensures Unescaped(EscapeByte(c) + rest) == [c] + Unescaped(rest)
  {
    if NeedsEscape(c) {
      var e := ['%', UPPER_HEX[c as int / 16], UPPER_HEX[c as int % 16]];
      HexDigit(c as int / 16);
      HexDigit(c as int % 16);
      assert (e + rest)[3..] == rest && EscapeAt(e + rest);
    } else {
      assert ([c] + rest)[1..] == rest;
    }
  }

  lemma {:induction false} HexDigit(d: int)
    requires 0 <= d < 16
    ensures Unhex(UPPER_HEX[d]) == d && !Reserved(UPPER_HEX[d]) && UPPER_HEX[d] != '/' && UPPER_HEX[d] != '.'
  {
    if d < 4 {} else if d < 8 {} else if d < 12 {} else {}
  }

  /** A byte is escaped, to three, exactly when it is a control byte or one of nine others. */
  lemma {:induction false} EscapedExactly(c: char)
    ensures |EscapeByte(c)| == (if c as int <= 31 || c in "<>:\"\\|?*%" then 3 else 1)
    ensures |EscapeByte(c)| == 1 ==> EscapeByte(c) == [c]
  {
  }

  /** The decoder reads hexadecimal digits in either case, and nothing else. */
  lemma {:induction false} HexInEitherCase(c: char, d: int)
    ensures -1 <= Unhex(c) < 16
    ensures 0 <= d < 16 ==> (Unhex(c) == d <==> c == "0123456789ABCDEF"[d] || c == "0123456789abcdef"[d])
  {
    if d < 4 {} else if d < 8 {} else if d < 12 {} else {}
  }

  /** What an escape in either case stands for; where no two digits follow, '%' stands
      for itself. */
  lemma {:induction false} UnescapeAny(s: string, hi: int, lo: int, rest: string)
    requires 0 <= hi < 16 && 0 <= lo < 16 && |s| == 3 && s[0] == '%'
    requires s[1] in ["0123456789ABCDEF"[hi], "0123456789abcdef"[hi]] && s[2] in ["0123456789ABCDEF"[lo], "0123456789abcdef"[lo]]
    ensures Unescaped(s + rest) == [(16 * hi + lo) as char] + Unescaped(rest)
  {
    HexInEitherCase(s[1], hi);
    HexInEitherCase(s[2], lo);
    assert (s + rest)[3..] == rest;
  }

  // --- whole keys: '/' separates segments ---

  function EscapedAll(segs: seq<string>): seq<string> {
    if segs == [] then [] else [Escaped(segs[0])] + EscapedAll(segs[1..])
  }

  function UnescapedAll(segs: seq<string>): seq<string> {
    if segs == [] then [] else [Unescaped(segs[0])] + UnescapedAll(segs[1..])
  }

  /** The key's file name without its extension. */
  function EncodedKey(key: string): string {
    Join(EscapedAll(Split(key, '/')), '/')
  }

  function DecodedKey(name: string): string {
    Join(UnescapedAll(Split(name, '/')), '/')
  }

  method EncodeKey(key: string) returns (name: string)
    ensures name == EncodedKey(key)
  {
    var segs := Split(key, '/');
    var i := 0;
    while i < |segs|
      invariant 0 <= i <= |segs| == |Split(key, '/')|
      invariant segs[i..] == Split(key, '/')[i..]
      invariant segs[..i] == EscapedAll(Split(key, '/')[..i])
    {
      ghost var all := Split(key, '/');
      var e := EncodeSegment(segs[i]);
      EscapedAllSnoc(all[..i], all[i]);
      assert all[..i + 1] == all[..i] + [all[i]];
      assert segs[i..][1..] == segs[i + 1..] && all[i..][1..] == all[i + 1..];
      segs := segs[i := e];
      i := i + 1;
    }
    assert Split(key, '/')[..i] == Split(key, '/') && segs[..i] == segs;
    name := Join(segs, '/');
  }

  method DecodeKey(name: string) returns (key: string)
    ensures key == DecodedKey(name)
  {
    var segs := Split(name, '/');
    var i := 0;
    while i < |segs|
      invariant 0 <= i <= |segs| == |Split(name, '/')|
      invariant segs[i..] == Split(name, '/')[i..]
      invariant segs[..i] == UnescapedAll(Split(name, '/')[..i])
    {
      ghost var all := Split(name, '/');
      var e := DecodeSegment(segs[i]);
      UnescapedAllSnoc(all[..i], all[i]);
      assert all[..i + 1] == all[..i] + [all[i]];
      assert segs[i..][1..] == segs[i + 1..] && all[i..][1..] == all[i + 1..];
      segs := segs[i := e];
      i := i + 1;
    }
    assert Split(name, '/')[..i] == Split(name, '/') && segs[..i] == segs;
    key := Join(segs, '/');
  }

  lemma {:induction false} EscapedAllSnoc(a: seq<string>, x: string)
    ensures EscapedAll(a + [x]) == EscapedAll(a) + [Escaped(x)]
  {
    if a != [] {
      EscapedAllSnoc(a[1..], x);
      assert (a + [x])[1..] == a[1..] + [x];
    }
  }

  lemma {:induction false} UnescapedAllSnoc(a: seq<string>, x: string)
    ensures UnescapedAll(a + [x]) == UnescapedAll(a) + [Unescaped(x)]
  {
    if a != [] {
      UnescapedAllSnoc(a[1..], x);
      assert (a + [x])[1..] == a[1..] + [x];
    }
  }

  lemma {:induction false} EscapedAllConcat(a: seq<string>, b: seq<string>)
    ensures EscapedAll(a + b) == EscapedAll(a) + EscapedAll(b)
  {
    if a == [] {
      assert a + b == b;
    } else {
      EscapedAllConcat(a[1..], b);
      assert (a + b)[1..] == a[1..] + b;
    }
  }

  lemma {:induction false} EscapedAllFacts(segs: seq<string>)
    requires forall i :: 0 <= i < |segs| ==> '/' !in segs[i]
    ensures |EscapedAll(segs)| == |segs|
    ensures forall i :: 0 <= i < |segs| ==> EscapedAll(segs)[i] == Escaped(segs[i]) && '/' !in EscapedAll(segs)[i]
    ensures UnescapedAll(EscapedAll(segs)) == segs
  {
    if segs != [] {
      EscapedAllFacts(segs[1..]);
      EscapedBytes(segs[0]);
      UnescapeEscape(segs[0]);
      assert EscapedAll(segs)[1..] == EscapedAll(segs[1..]);
      assert [segs[0]] + segs[1..] == segs;
    }
  }

  /** What an encoded string is made of: no reserved byte, and '/' only where the
      original has it; it never becomes empty, "." or "..". */
  lemma {:induction false} EscapeByteIs(c: char)
    ensures forall x :: x in EscapeByte(c) ==> !Reserved(x) && (x == '/' ==> c == '/')
    ensures EscapeByte(c) == [c] || EscapeByte(c)[0] == '%'
    ensures |EscapeByte(c)| >= 1
  {
    if NeedsEscape(c) {
      HexDigit(c as int / 16);
      HexDigit(c as int % 16);
    }
  }

  lemma {:induction false} EscapedBytes(s: string)
    ensures forall c :: c in Escaped(s) ==> !Reserved(c)
    ensures '/' !in s ==> '/' !in Escaped(s)
    ensures |Escaped(s)| >= |s|
  {
    if s != "" {
      EscapedBytes(s[1..]);
      EscapeByteIs(s[0]);
      assert Escaped(s) == EscapeByte(s[0]) + Escaped(s[1..]);
      assert s == [s[0]] + s[1..];
    }
  }

  lemma {:induction false} NothingEscaped(s: string)
    ensures '%' !in Escaped(s) ==> Escaped(s) == s
  {
    if s != "" {
      NothingEscaped(s[1..]);
      EscapeByteIs(s[0]);
      assert Escaped(s) == EscapeByte(s[0]) + Escaped(s[1..]);
      assert s == [s[0]] + s[1..];
    }
  }

  /** decodeKey(encodeKey(k)) = k for every key. */
  lemma {:induction false} KeyRoundTrip(key: string)
    ensures DecodedKey(EncodedKey(key)) == key
  {
    var segs := Split(key, '/');
    SplitHasNoSeparator(key, '/');
    EscapedAllFacts(segs);
    SplitJoin(EscapedAll(segs), '/');
    JoinSplit(key, '/');
  }

  /** Distinct keys never share a file. */
  lemma {:induction false} FilesAreDistinct(k1: string, k2: string)
    requires EncodedKey(k1) + EXT == EncodedKey(k2) + EXT
    ensures k1 == k2
  {
    assert EncodedKey(k1) == (EncodedKey(k1) + EXT)[..|EncodedKey(k1)|];
    assert EncodedKey(k2) == (EncodedKey(k2) + EXT)[..|EncodedKey(k2)|];
    KeyRoundTrip(k1);
    KeyRoundTrip(k2);
  }

  /** The rule every stored key passes: non-empty segments, none a dot segment. */
  predicate GoodSegment(seg: string) {
    seg != "" && seg != "." && seg != ".."
  }

  predicate ValidKey(key: string) {
    forall i :: 0 <= i < |Split(key, '/')| ==> GoodSegment(Split(key, '/')[i])
  }

  /** A path's segments with the empty ones and "." skipped and each ".." undoing the one
      before it. */
  function Cleaned(segs: seq<string>): seq<string>
    decreases |segs|
  {
    if segs == [] then []
    else
      var init, last := Cleaned(segs[..|segs| - 1]), segs[|segs| - 1];
      if last == "" || last == "." then init
      else if last == ".." then (if init == [] then [] else init[..|init| - 1])
      else init + [last]
  }

  lemma {:induction false} CleanedIsGood(segs: seq<string>)
    ensures |Cleaned(segs)| <= |segs|
    ensures Cleaned(segs) == segs <==> forall i :: 0 <= i < |segs| ==> GoodSegment(segs[i])
    decreases |segs|
  {
    if segs != [] {
      var init, last := segs[..|segs| - 1], segs[|segs| - 1];
      CleanedIsGood(init);
      assert segs == init + [last];
      if Cleaned(segs) == segs {
        assert Cleaned(init) == init;
      }
    }
  }

  /** A key is valid exactly when resolving it as a path leaves it as it is: it names one
      file, below the directory it is put in. */
  lemma {:induction false} ValidIsClean(key: string)
    ensures ValidKey(key) <==> Cleaned(Split(key, '/')) == Split(key, '/')
  {
    CleanedIsGood(Split(key, '/'));
  }

  lemma {:induction false} EscapedGoodSegment(seg: string)
    ensures GoodSegment(Escaped(seg)) <==> GoodSegment(seg)
  {
    EscapedBytes(seg);
    if '%' in Escaped(seg) {
      assert Escaped(seg) != "." && Escaped(seg) != "..";
      PlainEscaped(".");
      PlainEscaped("..");
    }
  }

  /** Encoding keeps a key's validity, both ways, and leaves no reserved byte. */
  lemma {:induction false} EncodedKeyIsPortable(key: string)
    ensures ValidKey(EncodedKey(key)) <==> ValidKey(key)
    ensures forall c :: c in EncodedKey(key) ==> !Reserved(c)
  {
    var segs := Split(key, '/');
    SplitHasNoSeparator(key, '/');
    EscapedAllFacts(segs);
    SplitJoin(EscapedAll(segs), '/');
    forall i | 0 <= i < |segs|
      ensures GoodSegment(EscapedAll(segs)[i]) <==> GoodSegment(segs[i])
      ensures forall c :: c in EscapedAll(segs)[i] ==> !Reserved(c)
    {
      EscapedGoodSegment(segs[i]);
      EscapedBytes(segs[i]);
    }
    JoinBytes(EscapedAll(segs));
  }

  lemma {:induction false} JoinBytes(segs: seq<string>)
    requires forall i :: 0 <= i < |segs| ==> forall c :: c in segs[i] ==> !Reserved(c)
    ensures forall c :: c in Join(segs, '/') ==> !Reserved(c)
  {
    if |segs| > 1 {
      JoinBytes(segs[1..]);
    }
  }

  lemma {:induction false} EncodedUnderPrefix(p: string, rest: string)
    ensures EncodedKey(p + "/" + rest) == EncodedKey(p) + "/" + EncodedKey(rest)
  {
    SplitAtSeparator(p, rest, '/');
    EscapedAllConcat(Split(p, '/'), Split(rest, '/'));
    JoinConcat(EscapedAll(Split(p, '/')), EscapedAll(Split(rest, '/')));
  }

  lemma {:induction false} JoinConcat(a: seq<string>, b: seq<string>)
    requires a != [] && b != []
    ensures Join(a + b, '/') == Join(a, '/') + "/" + Join(b, '/')
  {
    if |a| == 1 {
      assert (a + b)[1..] == b;
    } else {
      JoinConcat(a[1..], b);
      assert (a + b)[1..] == a[1..] + b;
      assert a[0] + ['/'] + (Join(a[1..], '/') + "/" + Join(b, '/')) == Join(a, '/') + "/" + Join(b, '/');
    }
  }

  lemma {:induction false} UnescapedAllConcat(a: seq<string>, b: seq<string>)
    ensures UnescapedAll(a + b) == UnescapedAll(a) + UnescapedAll(b)
  {
    if a == [] {
      assert a + b == b;
    } else {
      UnescapedAllConcat(a[1..], b);
      assert (a + b)[1..] == a[1..] + b;
    }
  }

  /** Walking the encoded prefix directory finds exactly the keys under the prefix. */
  lemma {:induction false} PrefixDirectory(p: string, key: string)
    ensures p + "/" <= key <==> EncodedKey(p) + "/" <= EncodedKey(key)
  {
    hide EncodedKey;
    if p + "/" <= key {
      var rest := key[|p| + 1..];
      assert key == p + "/" + rest;
      EncodedUnderPrefix(p, rest);
    }
    if EncodedKey(p) + "/" <= EncodedKey(key) {
      var tail := EncodedKey(key)[|EncodedKey(p)| + 1..];
      assert EncodedKey(key) == EncodedKey(p) + "/" + tail;
      KeyRoundTrip(key);
      KeyRoundTrip(p);
      DecodedUnderPrefix(EncodedKey(p), tail);
    }
  }

  lemma {:induction false} DecodedUnderPrefix(p: string, tail: string)
    ensures DecodedKey(p + "/" + tail) == DecodedKey(p) + "/" + DecodedKey(tail)
  {
    hide Join;
    SplitAtSeparator(p, tail, '/');
    UnescapedAllConcat(Split(p, '/'), Split(tail, '/'));
    JoinConcat(UnescapedAll(Split(p, '/')), UnescapedAll(Split(tail, '/')));
  }

  // --- the backend ---

  datatype BackendError = BadKey | NotFound

  function TrimSlash(prefix: string): string {
    if prefix != "" && prefix[|prefix| - 1] == '/' then prefix[..|prefix| - 1] else prefix
  }

  /** The keys a listing of `prefix` may return. */
  ghost function KeysUnder(keys: set<string>, prefix: string): set<string> {
    if prefix == "" then keys else set k | k in keys && TrimSlash(prefix) + "/" <= k
  }

  /** A slash at the end of a prefix makes no difference to a listing. */
  lemma {:induction false} SlashOrNot(keys: set<string>, prefix: string)
    requires prefix != "" && prefix[|prefix| - 1] != '/'
    ensures KeysUnder(keys, prefix + "/") == KeysUnder(keys, prefix)
    ensures forall k :: k in KeysUnder(keys, prefix) <==> k in keys && |k| > |prefix| && k[..|prefix|] == prefix && k[|prefix|] == '/'
  {
    assert TrimSlash(prefix + "/") == prefix;
    forall k | k in keys ensures prefix + "/" <= k <==> |k| > |prefix| && k[..|prefix|] == prefix && k[|prefix|] == '/' {
      if prefix + "/" <= k {
        assert (prefix + "/")[|prefix|] == k[|prefix|];
      }
      if |k| > |prefix| && k[..|prefix|] == prefix && k[|prefix|] == '/' {
        assert k[..|prefix| + 1] == prefix + "/";
      }
    }
  }

  predicate HasSuffix(s: string, suffix: string) {
    |suffix| <= |s| && s[|s| - |suffix|..] == suffix
  }

  function Insert(s: seq<string>, k: string): seq<string> {
    if s == [] || Less(k, s[0]) then [k] + s else [s[0]] + Insert(s[1..], k)
  }

  lemma {:induction false} InsertKeepsAscending(s: seq<string>, k: string)
    requires Ascending(s) && k !in s
    ensures Ascending(Insert(s, k))
    ensures forall x :: x in Insert(s, k) <==> x in s || x == k
    ensures |Insert(s, k)| == |s| + 1
  {
    StrictTotalOrder();
    if s != [] && !Less(k, s[0]) {
      InsertKeepsAscending(s[1..], k);
      var r := Insert(s[1..], k);
      forall x ensures x in Insert(s, k) <==> x in s || x == k {
        assert x in Insert(s, k) <==> x == s[0] || x in r;
        assert x in s <==> x == s[0] || x in s[1..];
      }
      forall i, j | 0 <= i < j < |r| + 1 ensures Less(([s[0]] + r)[i], ([s[0]] + r)[j]) {
        if i == 0 {
          assert r[j - 1] in r;
        }
      }
    }
  }

  /** Files by relative path. Put writes a ".tmp" file and renames it; a write that
      dies in between leaves the ".tmp" file behind. */
  class Backend<B> {
    var files: map<string, B>
    ghost var blobs: map<string, B>

    ghost predicate Valid()
      reads this
    {
      && (forall k {:trigger ValidKey(k)} :: k in blobs ==> ValidKey(k))
      && (forall k {:trigger EncodedKey(k)} :: k in blobs ==>
            EncodedKey(k) + EXT in files && files[EncodedKey(k) + EXT] == blobs[k])
      && (forall p {:trigger HasSuffix(p, EXT)} :: p in files && HasSuffix(p, EXT) ==>
            exists k {:trigger EncodedKey(k)} :: k in blobs && p == EncodedKey(k) + EXT)
    }

    constructor ()
      ensures Valid() && blobs == map[]
    {
      files := map[];
      blobs := map[];
    }

    method Put(key: string, blob: B, crash: bool) returns (err: Option<BackendError>)
      requires Valid()
      modifies this
      ensures Valid()
      ensures !ValidKey(key) ==> err == Some(BadKey) && files == old(files)
      ensures ValidKey(key) ==> err == None
      ensures blobs == if ValidKey(key) && !crash then old(blobs)[key := blob] else old(blobs)
    {
      if !ValidKey(key) {
        return Some(BadKey);
      }
      var name := EncodeKey(key);
      var full := name + EXT;
      var tmp := full + ".tmp";
      err := None;
      assert !HasSuffix(tmp, EXT) by {
        assert tmp[|tmp| - 4..] == ".tmp";
      }
      files := files[tmp := blob];
      if crash {
        return;
      }
      assert tmp != full;
      forall k | k in blobs && k != key ensures EncodedKey(k) + EXT != full && EncodedKey(k) + EXT != tmp {
        if EncodedKey(k) + EXT == full {
          FilesAreDistinct(k, key);
        }
        assert HasSuffix(EncodedKey(k) + EXT, EXT);
      }
      files := (files - {tmp})[full := blob];
      blobs := blobs[key := blob];
    }

    method Get(key: string) returns (r: Result<B, BackendError>)
      requires Valid()
      ensures r == if !ValidKey(key) then Err(BadKey) else if key in blobs then Ok(blobs[key]) else Err(NotFound)
    {
      if !ValidKey(key) {
        return Err(BadKey);
      }
      var name := EncodeKey(key);
      assert HasSuffix(name + EXT, EXT);
      if name + EXT !in files {
        return Err(NotFound);
      }
      ghost var k :| k in blobs && name + EXT == EncodedKey(k) + EXT;
      FilesAreDistinct(key, k);
      return Ok(files[name + EXT]);
    }

    method Delete(key: string) returns (err: Option<BackendError>)
      requires Valid()
      modifies this
      ensures Valid()
      ensures err == if ValidKey(key) then None else Some(BadKey)
      ensures blobs == if ValidKey(key) then old(blobs) - {key} else old(blobs)
    {
      if !ValidKey(key) {
        return Some(BadKey);
      }
      var name := EncodeKey(key);
      forall k | k in blobs && EncodedKey(k) + EXT == name + EXT ensures k == key {
        FilesAreDistinct(k, key);
      }
      files := files - {name + EXT};
      blobs := blobs - {key};
      return None;
    }

    /** Walks the files under a directory and collects, sorted, the keys after
        `since` that their names spell. */
    method Walk(prefix: string, since: string) returns (found: seq<string>)
      requires Valid()
      ensures Ascending(found)
      ensures forall k :: k in found <==> k in KeysUnder(blobs.Keys, prefix) && Less(since, k)
    {
      var dir := "";
      if prefix != "" {
        dir := EncodeKey(TrimSlash(prefix));
        dir := dir + "/";
      }
      found := [];
      var paths := files.Keys;
      while paths != {}
        invariant paths <= files.Keys
        invariant Ascending(found)
        invariant forall k :: k in found <==>
                    k in KeysUnder(blobs.Keys, prefix) && Less(since, k) && EncodedKey(k) + EXT !in paths
        decreases |paths|
      {
        var p :| p in paths;
        paths := paths - {p};
        if HasSuffix(p, EXT) {
          ghost var k :| k in blobs && p == EncodedKey(k) + EXT;
          PathSpellsKey(prefix, k);
          if dir <= p {
            var key := DecodeKey(p[..|p| - |EXT|]);
            if Less(since, key) {
              InsertKeepsAscending(found, key);
              found := Insert(found, key);
            }
          }
          forall k' | EncodedKey(k') + EXT == p ensures k' == k {
            FilesAreDistinct(k', k);
          }
        } else {
          forall k' ensures EncodedKey(k') + EXT != p {
            assert HasSuffix(EncodedKey(k') + EXT, EXT);
          }
        }
      }
    }

    /** One page of the keys under a prefix. */
    method List(prefix: string, since: string, limit: int) returns (r: Result<(seq<string>, string), BackendError>)
      requires Valid()
      ensures r.Err? <==> prefix != "" && !ValidKey(TrimSlash(prefix))
      ensures r.Ok? ==> IsPage(KeysUnder(blobs.Keys, prefix), since, if limit <= 0 then 100 else limit,
                               r.value.0, r.value.1)
    {
      if prefix != "" && !ValidKey(TrimSlash(prefix)) {
        return Err(BadKey);
      }
      var cap := if limit <= 0 then 100 else limit;
      var keys := Walk(prefix, since);
      CutIsPage(KeysUnder(blobs.Keys, prefix), since, cap, keys);
      if |keys| > cap {
        keys := keys[..cap];
      }
      var next := if |keys| == cap then keys[|keys| - 1] else "";
      return Ok((keys, next));
    }
  }

  lemma {:induction false} CutIsPage(keys: set<string>, since: string, cap: nat, sorted: seq<string>)
    requires cap > 0 && Ascending(sorted)
    requires forall k :: k in sorted <==> k in keys && Less(since, k)
    ensures var page := if |sorted| > cap then sorted[..cap] else sorted;
            IsPage(keys, since, cap, page, if |page| == cap then page[cap - 1] else "")
  {
    var page := if |sorted| > cap then sorted[..cap] else sorted;
    assert forall i :: 0 <= i < |page| ==> sorted[i] == page[i] && page[i] in page;
    forall k | k in sorted && k !in page ensures |page| == cap && Less(page[cap - 1], k) {
      var i :| 0 <= i < |sorted| && sorted[i] == k;
    }
  }

  /** A blob file lies under the prefix directory exactly when its key lies under
      the prefix, and its name decodes to that key. */
  lemma {:induction false} PathSpellsKey(prefix: string, k: string)
    ensures var p := EncodedKey(k) + EXT;
            DecodedKey(p[..|p| - |EXT|]) == k
    ensures prefix != "" ==>
              (EncodedKey(TrimSlash(prefix)) + "/" <= EncodedKey(k) + EXT <==> TrimSlash(prefix) + "/" <= k)
  {
    var p := EncodedKey(k) + EXT;
    assert p[..|p| - |EXT|] == EncodedKey(k);
    KeyRoundTrip(k);
    InDirectory(TrimSlash(prefix), k);
  }

  lemma {:induction false} InDirectory(p: string, key: string)
    ensures EncodedKey(p) + "/" <= EncodedKey(key) + EXT <==> p + "/" <= key
  {
    PrefixDirectory(p, key);
    var d := EncodedKey(p) + "/";
    if d <= EncodedKey(key) + EXT {
      assert (EncodedKey(key) + EXT)[|d| - 1] == '/';
      assert |d| <= |EncodedKey(key)|;
      assert d == EncodedKey(key)[..|d|];
    }
  }
}
