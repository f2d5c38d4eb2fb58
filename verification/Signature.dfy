/**
 The canonical text a payment webhook is signed over, and the comparison of the hex
 digests. Texts are sequences of UTF-16 code units, which is what a JavaScript sort
 compares; a stringified value is taken as its UTF-8 octets, which is what
 encodeURIComponent escapes. The hash itself is a parameter.
 */
module Signature {
  import opened Common

  type Octet = x: nat | x < 256
  type Text = seq<nat>

  const AMPERSAND := 38
  const EQUALS := 61
  const PERCENT := 37

  // ----- sorting the keys -------------------------------------------------------------

  predicate AtMost(a: Text, b: Text) {
    a == [] || (b != [] && (a[0] < b[0] || (a[0] == b[0] && AtMost(a[1..], b[1..]))))
  }

  lemma {:induction false} AtMostIsTotalOrder(a: Text, b: Text, c: Text)
    ensures AtMost(a, a)
    ensures AtMost(a, b) || AtMost(b, a)
    ensures AtMost(a, b) && AtMost(b, a) ==> a == b
    ensures AtMost(a, b) && AtMost(b, c) ==> AtMost(a, c)
    decreases |a| + |b| + |c|
  {
    if a != [] {
      AtMostIsTotalOrder(a[1..], if b == [] then b else b[1..], if c == [] then c else c[1..]);
      assert a == [a[0]] + a[1..];
      assert b != [] ==> b == [b[0]] + b[1..];
    }
  }

  /** The order is decided by the first code unit in which two texts differ; a beginning
      comes before what it begins. */
  lemma {:induction false} AtMostIsLexicographic(common: Text, x: nat, y: nat, a: Text, b: Text)
    ensures AtMost(common + [x] + a, common + [y] + b) <==> x < y || (x == y && AtMost(a, b))
    ensures AtMost(common, common + a)
  {
    if common == [] {
      assert common + [x] + a == [x] + a && common + [y] + b == [y] + b && ([x] + a)[1..] == a && ([y] + b)[1..] == b;
    } else {
      AtMostIsLexicographic(common[1..], x, y, a, b);
      assert (common + [x] + a)[1..] == common[1..] + [x] + a && (common + [y] + b)[1..] == common[1..] + [y] + b;
      assert (common + a)[1..] == common[1..] + a;
    }
  }

  predicate Ascending(keys: seq<Text>) {
    forall i, j | 0 <= i < j < |keys| :: AtMost(keys[i], keys[j])
  }

  function Insert(k: Text, keys: seq<Text>): (r: seq<Text>)
    ensures multiset(r) == multiset(keys) + multiset{k}
  {
    if keys == [] || AtMost(k, keys[0]) then
      [k] + keys
    else
      assert keys == [keys[0]] + keys[1..];
      [keys[0]] + Insert(k, keys[1..])
  }

  function Sorted(keys: seq<Text>): (r: seq<Text>)
    ensures multiset(r) == multiset(keys)
  {
    if keys == [] then []
    else
      assert keys == [keys[0]] + keys[1..];
      Insert(keys[0], Sorted(keys[1..]))
  }

  lemma {:induction false} InsertAscends(k: Text, keys: seq<Text>)
    requires Ascending(keys)
    ensures Ascending(Insert(k, keys))
  {
    if keys != [] {
      AtMostIsTotalOrder(k, keys[0], keys[0]);
      if AtMost(k, keys[0]) {
        forall j | 0 <= j < |keys|
          ensures AtMost(k, keys[j])
        {
          AtMostIsTotalOrder(k, keys[0], keys[j]);
          AtMostIsTotalOrder(keys[0], keys[0], keys[0]);
        }
      } else {
        InsertAscends(k, keys[1..]);
        var rest := Insert(k, keys[1..]);
        forall j | 0 <= j < |rest|
          ensures AtMost(keys[0], rest[j])
        {
          assert rest[j] in multiset(rest);
          assert rest[j] == k || rest[j] in keys[1..];
        }
      }
    }
  }

  lemma {:induction false} SortedAscends(keys: seq<Text>)
    ensures Ascending(Sorted(keys))
  {
    if keys != [] {
      SortedAscends(keys[1..]);
      InsertAscends(keys[0], Sorted(keys[1..]));
    }
  }

  lemma FirstIsLeast(a: seq<Text>, k: Text)
    requires Ascending(a) && k in multiset(a)
    ensures AtMost(a[0], k)
  {
    var i :| 0 <= i < |a| && a[i] == k;
    AtMostIsTotalOrder(k, k, k);
  }

  lemma TailMultiset(a: seq<Text>)
    requires a != []
    ensures multiset(a[1..]) == multiset(a) - multiset{a[0]} && a[0] in multiset(a)
  {
    assert a == [a[0]] + a[1..];
  }

  /** Whatever way a list is sorted, there is only one result. */
  lemma {:induction false} AscendingIsUnique(a: seq<Text>, b: seq<Text>)
    requires Ascending(a) && Ascending(b) && multiset(a) == multiset(b)
    ensures a == b
  {
    if a == [] {
      assert |multiset(a)| == |a| && |multiset(b)| == |b|;
    } else {
      TailMultiset(a);
      assert b != [];
      TailMultiset(b);
      FirstIsLeast(a, b[0]);
      FirstIsLeast(b, a[0]);
      AtMostIsTotalOrder(a[0], b[0], b[0]);
      AscendingIsUnique(a[1..], b[1..]);
      assert a == [a[0]] + a[1..] && b == [b[0]] + b[1..];
    }
  }

  // ----- percent-encoding -------------------------------------------------------------

  /** What encodeURIComponent leaves as it is. */
  predicate Unreserved(c: nat) {
    || 48 <= c <= 57 || 65 <= c <= 90 || 97 <= c <= 122
    || c in {33, 39, 40, 41, 42, 45, 46, 95, 126}
  }

  /** The marks that section 2.3 of RFC 3986 leaves unreserved, and the five that
      encodeURIComponent leaves besides. */
  const KEPT_MARKS := "-_.~!*'()"

  /** An octet stays as it is exactly when it is a letter, a digit or one of the marks;
      else it becomes a percent sign and its two hexadecimal digits, in upper case. */
  lemma EscapedExactlyWhen(o: Octet)
    ensures var plain := o < 128 && ('a' <= o as char <= 'z' || 'A' <= o as char <= 'Z' || '0' <= o as char <= '9' || o as char in KEPT_MARKS);
            Escaped(o) == if plain then [o] else [37, "0123456789ABCDEF"[o / 16] as nat, "0123456789ABCDEF"[o % 16] as nat]
  {
    assert KEPT_MARKS == ['-', '_', '.', '~', '!', '*', '\'', '(', ')'];
    assert o as char in KEPT_MARKS <==> o in {45, 95, 46, 126, 33, 42, 39, 40, 41};
    UpperDigit(o / 16);
    UpperDigit(o % 16);
  }

  lemma UpperDigit(n: nat)
    requires n < 16
    ensures "0123456789ABCDEF"[n] as nat == HexDigit(n, 65)
  {
  }

  function HexDigit(n: nat, letters: nat): nat
    requires n < 16
  {
    if n < 10 then 48 + n else letters + n - 10
  }

  function HexValue(c: nat): (v: Option<nat>)
    ensures v.Some? ==> v.value < 16
  {
    if 48 <= c <= 57 then Some(c - 48)
    else if 65 <= c <= 70 then Some(c - 55)
    else if 97 <= c <= 102 then Some(c - 87)
    else None
  }

  function Escaped(o: Octet): Text {
    if Unreserved(o) then [o] else [PERCENT, HexDigit(o / 16, 65), HexDigit(o % 16, 65)]
  }

  function Encode(value: seq<Octet>): Text {
    if value == [] then [] else Escaped(value[0]) + Encode(value[1..])
  }

  function Decode(text: Text): Option<seq<Octet>> {
    if text == [] then Some([])
    else if text[0] == PERCENT then
      if |text| < 3 || HexValue(text[1]) == None || HexValue(text[2]) == None then None
      else
        var rest := Decode(text[3..]);
        if rest == None then None else Some([HexValue(text[1]).value * 16 + HexValue(text[2]).value] + rest.value)
    else if text[0] >= 256 then None
    else
      var rest := Decode(text[1..]);
      if rest == None then None else Some([text[0]] + rest.value)
  }

  /** Decoding undoes one escape and goes on. */
  lemma DecodeEscaped(o: Octet, rest: Text)
    requires Decode(rest).Some?
    ensures Decode(Escaped(o) + rest) == Some([o] + Decode(rest).value)
  {
    var text := Escaped(o) + rest;
    if Unreserved(o) {
      assert text[1..] == rest;
    } else {
      assert text[0] == PERCENT && text[3..] == rest;
      assert HexValue(text[1]) == Some(o / 16) && HexValue(text[2]) == Some(o % 16);
    }
  }

  lemma {:induction false} DecodeEncode(value: seq<Octet>)
    ensures Decode(Encode(value)) == Some(value)
  {
    hide Escaped;
    if value != [] {
      DecodeEncode(value[1..]);
      DecodeEscaped(value[0], Encode(value[1..]));
      assert value == [value[0]] + value[1..];
    }
  }

  lemma {:induction false} EncodeConcat(a: seq<Octet>, b: seq<Octet>)
    ensures Encode(a + b) == Encode(a) + Encode(b)
  {
    hide Escaped;
    if a == [] {
      assert a + b == b;
    } else {
      assert (a + b)[1..] == a[1..] + b;
      EncodeConcat(a[1..], b);
      assert Escaped(a[0]) + (Encode(a[1..]) + Encode(b)) == (Escaped(a[0]) + Encode(a[1..])) + Encode(b);
    }
  }

  lemma {:induction false} EncodeHasNoAmpersand(value: seq<Octet>)
    ensures AMPERSAND !in Encode(value)
  {
    if value != [] {
      EncodeHasNoAmpersand(value[1..]);
      assert AMPERSAND !in Escaped(value[0]);
    }
  }

  // ----- the payload ------------------------------------------------------------------

  /** The stringified value of a key; a missing or null one is the empty text. */
  function Stringified(data: map<Text, Option<seq<Octet>>>, key: Text): seq<Octet> {
    if key in data && data[key].Some? then data[key].value else []
  }

  function Pair(data: map<Text, Option<seq<Octet>>>, key: Text): Text {
    key + [EQUALS] + Encode(Stringified(data, key))
  }

  function Joined(data: map<Text, Option<seq<Octet>>>, keys: seq<Text>): Text {
    if keys == [] then []
    else if |keys| == 1 then Pair(data, keys[0])
    else Pair(data, keys[0]) + [AMPERSAND] + Joined(data, keys[1..])
  }

  function BuildSignaturePayload(data: map<Text, Option<seq<Octet>>>, signatureKeys: seq<Text>): Text {
    Joined(data, Sorted(signatureKeys))
  }

  lemma SortedOfTwo(first: Text, second: Text)
    requires !AtMost(second, first)
    ensures Sorted([second, first]) == [first, second]
  {
    var none: seq<Text> := [];
    assert [second, first][1..] == [first] && [first][1..] == none;
    assert Sorted([first]) == Insert(first, none) == [first];
    assert Insert(second, [first]) == [first] + Insert(second, none);
  }

  /** What a payload looks like: each key, an equals sign and its encoded value, in
      ascending order of the keys, with ampersands between. */
  lemma PayloadOfTwo(data: map<Text, Option<seq<Octet>>>, first: Text, second: Text)
    requires !AtMost(second, first)
    ensures BuildSignaturePayload(data, [second, first])
         == first + [61] + Encode(Stringified(data, first)) + [38] + (second + [61] + Encode(Stringified(data, second)))
  {
    SortedOfTwo(first, second);
    hide Encode, Stringified, Sorted, AtMost;
    assert [first, second][1..] == [second];
    assert Joined(data, [first, second]) == Pair(data, first) + [AMPERSAND] + Joined(data, [second]);
  }

  /** The order in which the sender lists the keys does not matter. */
  lemma PayloadIgnoresKeyOrder(data: map<Text, Option<seq<Octet>>>, keys: seq<Text>, permuted: seq<Text>)
    requires multiset(keys) == multiset(permuted)
    ensures BuildSignaturePayload(data, keys) == BuildSignaturePayload(data, permuted)
  {
    SortedAscends(keys);
    SortedAscends(permuted);
    AscendingIsUnique(Sorted(keys), Sorted(permuted));
  }

  /** A text without a separator is what stands before the first separator. */
  lemma SplitAtSeparator(a: Text, b: Text, restA: Text, restB: Text)
    requires AMPERSAND !in a && AMPERSAND !in b
    requires restA == [] || restA[0] == AMPERSAND
    requires restB == [] || restB[0] == AMPERSAND
    requires a + restA == b + restB
    ensures a == b && restA == restB
  {
    var whole := a + restA;
    assert forall i | 0 <= i < |a| :: whole[i] == a[i];
    assert forall i | 0 <= i < |b| :: whole[i] == b[i];
    assert a == (a + restA)[..|a|] && b == (b + restB)[..|b|];
    assert restA == (a + restA)[|a|..] && restB == (b + restB)[|b|..];
  }

  lemma PairSplits(head: Text, a: Text, b: Text, restA: Text, restB: Text)
    requires AMPERSAND !in a && AMPERSAND !in b
    requires restA == [] || restA[0] == AMPERSAND
    requires restB == [] || restB[0] == AMPERSAND
    requires head + a + restA == head + b + restB
    ensures a == b && restA == restB
  {
    assert (head + a + restA)[|head|..] == a + restA && (head + b + restB)[|head|..] == b + restB;
    SplitAtSeparator(a, b, restA, restB);
  }

  /** What follows the first pair of a payload. */
  function After(data: map<Text, Option<seq<Octet>>>, keys: seq<Text>): Text
    requires keys != []
  {
    if |keys| == 1 then [] else [AMPERSAND] + Joined(data, keys[1..])
  }

  lemma JoinedUnfolds(data: map<Text, Option<seq<Octet>>>, keys: seq<Text>)
    requires keys != []
    ensures Joined(data, keys) == keys[0] + [EQUALS] + Encode(Stringified(data, keys[0])) + After(data, keys)
    ensures keys[1..] == [] ==> Joined(data, keys[1..]) == []
    ensures keys[1..] != [] ==> After(data, keys)[1..] == Joined(data, keys[1..])
  {
    hide Encode, Stringified;
  }

  lemma {:induction false} JoinedIsInjective(data: map<Text, Option<seq<Octet>>>, other: map<Text, Option<seq<Octet>>>, keys: seq<Text>)
    requires Joined(data, keys) == Joined(other, keys)
    ensures forall k | k in keys :: Stringified(data, k) == Stringified(other, k)
  {
    hide Joined, Encode, Stringified, Decode;
    if keys != [] {
      var a, b := Stringified(data, keys[0]), Stringified(other, keys[0]);
      JoinedUnfolds(data, keys);
      JoinedUnfolds(other, keys);
      EncodeHasNoAmpersand(a);
      EncodeHasNoAmpersand(b);
      PairSplits(keys[0] + [EQUALS], Encode(a), Encode(b), After(data, keys), After(other, keys));
      DecodeEncode(a);
      DecodeEncode(b);
      JoinedIsInjective(data, other, keys[1..]);
      assert keys == [keys[0]] + keys[1..];
    }
  }

  /** One list of keys: equal payloads, equal values. So a signature over the payload
      pins the value of every signed key. */
  lemma PayloadPinsValues(data: map<Text, Option<seq<Octet>>>, other: map<Text, Option<seq<Octet>>>, keys: seq<Text>)
    ensures BuildSignaturePayload(data, keys) == BuildSignaturePayload(other, keys)
            <==> forall k | k in keys :: Stringified(data, k) == Stringified(other, k)
  {
    assert forall k :: k in keys <==> k in multiset(Sorted(keys)) by {
      assert forall k :: k in multiset(keys) <==> k in keys;
    }
    if BuildSignaturePayload(data, keys) == BuildSignaturePayload(other, keys) {
      JoinedIsInjective(data, other, Sorted(keys));
    } else if forall k | k in keys :: Stringified(data, k) == Stringified(other, k) {
      JoinedDependsOnValues(data, other, Sorted(keys));
    }
  }

  lemma {:induction false} JoinedDependsOnValues(data: map<Text, Option<seq<Octet>>>, other: map<Text, Option<seq<Octet>>>, keys: seq<Text>)
    requires forall k | k in keys :: Stringified(data, k) == Stringified(other, k)
    ensures Joined(data, keys) == Joined(other, keys)
  {
    if keys != [] {
      JoinedDependsOnValues(data, other, keys[1..]);
    }
  }

  // ----- comparing the digests ----------------------------------------------------------

  /** The hex digest, in lower case. */
  function Hex(digest: seq<Octet>): Text {
    if digest == [] then [] else [HexDigit(digest[0] / 16, 97), HexDigit(digest[0] % 16, 97)] + Hex(digest[1..])
  }

  /** Buffer.from(text, "hex") stops at the first pair that is not hexadecimal. */
  function FromHex(text: Text): seq<Octet> {
    if |text| < 2 || HexValue(text[0]) == None || HexValue(text[1]) == None then []
    else [HexValue(text[0]).value * 16 + HexValue(text[1]).value] + FromHex(text[2..])
  }

  /** verifyWebhookSignature; comparing buffers of different lengths throws, which the
      code turns into a refusal. */
  predicate Verify(digest: seq<Octet>, provided: Text) {
    && provided != []
    && |Hex(digest)| == |provided|
    && FromHex(Hex(digest)) == FromHex(provided)
  }

  function Lower(c: nat): nat {
    if 65 <= c <= 70 then c + 32 else c
  }

  function LowerAll(text: Text): Text {
    if text == [] then [] else [Lower(text[0])] + LowerAll(text[1..])
  }

  lemma HexOfFirst(digest: seq<Octet>)
    requires digest != []
    ensures Hex(digest) == ["0123456789abcdef"[digest[0] / 16] as nat, "0123456789abcdef"[digest[0] % 16] as nat] + Hex(digest[1..])
  {
    LowerDigit(digest[0] / 16);
    LowerDigit(digest[0] % 16);
    hide HexDigit;
  }

  /** Each octet of a digest in two digits, in lower case, the high one first. */
  lemma {:induction false} HexSpellsOctets(digest: seq<Octet>, i: nat)
    requires i < |digest|
    ensures |Hex(digest)| == 2 * |digest|
    ensures Hex(digest)[2 * i] == "0123456789abcdef"[digest[i] / 16] as nat && Hex(digest)[2 * i + 1] == "0123456789abcdef"[digest[i] % 16] as nat
  {
    HexOfFirst(digest);
    HexOfDigest(digest);
    hide Hex, FromHex;
    if i > 0 {
      HexSpellsOctets(digest[1..], i - 1);
      var rest := Hex(digest[1..]);
      assert Hex(digest)[2 * i] == rest[2 * (i - 1)] && Hex(digest)[2 * i + 1] == rest[2 * (i - 1) + 1];
    }
  }

  lemma LowerDigit(n: nat)
    requires n < 16
    ensures "0123456789abcdef"[n] as nat == HexDigit(n, 97)
  {
  }

  lemma {:induction false} HexOfDigest(digest: seq<Octet>)
    ensures |Hex(digest)| == 2 * |digest| && FromHex(Hex(digest)) == digest
  {
    if digest != [] {
      HexOfDigest(digest[1..]);
      assert Hex(digest)[2..] == Hex(digest[1..]);
    }
  }

  /** A text of full length decodes to the digest just when it spells it, in letters of
      either case. */
  lemma {:induction false} FromHexExactlyWhen(digest: seq<Octet>, text: Text)
    requires |text| == 2 * |digest|
    ensures FromHex(text) == digest <==> LowerAll(text) == Hex(digest)
  {
    if digest != [] {
      FromHexExactlyWhen(digest[1..], text[2..]);
      assert LowerAll(text) == [Lower(text[0]), Lower(text[1])] + LowerAll(text[2..]) by {
        assert text[1..][1..] == text[2..];
      }
      assert digest == [digest[0]] + digest[1..];
      var lower, hex := LowerAll(text), Hex(digest);
      assert lower == hex <==> lower[0] == hex[0] && lower[1] == hex[1] && lower[2..] == hex[2..];
    }
  }

  /** A signature is accepted exactly when it spells the digest in hexadecimal, in
      letters of either case. */
  lemma VerifyAcceptsExactlyWhen(digest: seq<Octet>, provided: Text)
    requires digest != []
    ensures Verify(digest, provided) <==> LowerAll(provided) == Hex(digest)
  {
    HexOfDigest(digest);
    LowerAllLength(provided);
    if |provided| == 2 * |digest| {
      FromHexExactlyWhen(digest, provided);
    }
  }

  lemma {:induction false} LowerAllLength(text: Text)
    ensures |LowerAll(text)| == |text|
  {
    if text != [] {
      LowerAllLength(text[1..]);
    }
  }
}
