/** The project form of the instructor: on creation it asks the server for the next
    project id, turns 32 random bytes into a 50-character hexadecimal access key and
    composes the shareable link; on submit it chooses between create and update. */
module ProjectForm {
  import opened Js

  newtype byte = x: int | 0 <= x < 256

  /** The length of the `Uint8Array` filled with random values. */
  const KEY_BYTES: nat := 32
  /** The `slice(0, 50)` that cuts the hexadecimal string. */
  const KEY_LENGTH: nat := 50

  // ---------------------------------------------------------------- hexadecimal digits

  predicate IsHexDigit(c: char) {
    '0' <= c <= '9' || 'a' <= c <= 'f'
  }

  /** Every character of `s` is a hexadecimal digit. */
  predicate IsHexString(s: string) {
    forall i :: 0 <= i < |s| ==> IsHexDigit(s[i])
  }

  /** The lower-case digit `Number.prototype.toString(16)` writes for 0..15. */
  function HexDigit(d: int): (c: char)
    requires 0 <= d < 16
    ensures IsHexDigit(c)
  {
    if d < 10 then (48 + d) as char else (87 + d) as char
  }

  /** The value of a hexadecimal digit; it inverts HexDigit. */
  function HexValue(c: char): (d: int)
    requires IsHexDigit(c)
    ensures 0 <= d < 16 && HexDigit(d) == c
  {
    if c <= '9' then c as int - 48 else c as int - 87
  }

  lemma HexValueOfDigit(d: int)
    requires 0 <= d < 16
    ensures HexValue(HexDigit(d)) == d
  {
  }

  /** `n.toString(16)`: the base-16 digits of `n`, most significant first, no padding. */
  function Radix16(n: nat): (r: string)
    ensures |r| >= 1
    ensures n < 16 ==> r == [HexDigit(n)]
    decreases n
  {
    if n < 16 then [HexDigit(n)] else Radix16(n / 16) + [HexDigit(n % 16)]
  }

  /** `s.padStart(width, fill)` with a one-character fill. */
  function PadStart(s: string, width: nat, fill: char): (r: string)
    ensures |r| == if |s| >= width then |s| else width
    ensures r[|r| - |s|..] == s
    ensures forall i :: 0 <= i < |r| - |s| ==> r[i] == fill
  {
    if |s| >= width then s else seq(width - |s|, _ => fill) + s
  }

  /** `b.toString(16).padStart(2, "0")`; its digits are given by ByteHexDigits. */
  function ByteHex(b: byte): (r: string)
    ensures |r| == 2
  {
    PadStart(Radix16(b as nat), 2, '0')
  }

  /** A byte is written as exactly two digits, the high nibble first, so a byte below 16
      gets a leading zero. */
  lemma ByteHexDigits(b: byte)
    ensures ByteHex(b) == [HexDigit(b as int / 16), HexDigit(b as int % 16)]
    ensures b < 16 ==> ByteHex(b)[0] == '0'
  {
    var n := b as nat;
    var digits := Radix16(n);
    if n < 16 {
      assert digits == [HexDigit(n)];
      assert n / 16 == 0 && n % 16 == n;
      assert HexDigit(0) == '0';
      var pad := seq(1, _ => '0');
      assert pad == ['0'];
      assert ByteHex(b) == pad + digits;
    } else {
      var high := n / 16;
      assert high < 16;
      assert Radix16(high) == [HexDigit(high)];
      assert digits == [HexDigit(high)] + [HexDigit(n % 16)];
      assert ByteHex(b) == digits;
    }
  }

  // ---------------------------------------------------------------- the key

  /** A function that writes every byte with exactly two characters. */
  predicate TwoWide(f: byte -> string) {
    forall b: byte :: |f(b)| == 2
  }

  /** `Array.from(bytes, f).join("")`: each byte written by `f`, concatenated in order. */
  function Join(bytes: seq<byte>, f: byte -> string): (r: string)
  {
    if bytes == [] then "" else f(bytes[0]) + Join(bytes[1..], f)
  }

  lemma {:induction false} JoinLength(bytes: seq<byte>, f: byte -> string)
    requires TwoWide(f)
    ensures |Join(bytes, f)| == 2 * |bytes|
    decreases |bytes|
  {
    if bytes != [] {
      assert |f(bytes[0])| == 2;
      JoinLength(bytes[1..], f);
    }
  }

  /** Characters 2i and 2i+1 of the joined string are the two characters written for byte i. */
  lemma {:induction false} JoinAt(bytes: seq<byte>, f: byte -> string, i: int)
    requires TwoWide(f) && 0 <= i < |bytes|
    ensures |Join(bytes, f)| == 2 * |bytes|
    ensures Join(bytes, f)[2 * i] == f(bytes[i])[0]
    ensures Join(bytes, f)[2 * i + 1] == f(bytes[i])[1]
    decreases |bytes|
  {
    JoinLength(bytes, f);
    var head, tail := f(bytes[0]), bytes[1..];
    var rest := Join(tail, f);
    assert |head| == 2;
    var all := head + rest;
    if i > 0 {
      JoinAt(tail, f, i - 1);
      assert tail[i - 1] == bytes[i];
      assert all[2 * i] == rest[2 * i - 2];
      assert all[2 * i + 1] == rest[2 * i - 1];
    }
    assert Join(bytes, f) == all;
  }

  /** Joining distributes over concatenation. */
  lemma {:induction false} JoinConcat(a: seq<byte>, b: seq<byte>, f: byte -> string)
    ensures Join(a + b, f) == Join(a, f) + Join(b, f)
    decreases |a|
  {
    if a == [] {
      assert a + b == b;
    } else {
      assert (a + b)[1..] == a[1..] + b;
      JoinConcat(a[1..], b, f);
    }
  }

  lemma ByteHexTwoWide()
    ensures TwoWide(ByteHex)
  {
  }

  /** The joined digits of the random bytes. */
  function Hex(bytes: seq<byte>): (r: string)
    ensures |r| == 2 * |bytes|
  {
    ByteHexTwoWide();
    JoinLength(bytes, ByteHex);
    Join(bytes, ByteHex)
  }

  /** A byte writer that writes the high and the low digit of every byte. */
  predicate WritesDigits(f: byte -> string) {
    forall b: byte :: f(b) == [HexDigit(b as int / 16), HexDigit(b as int % 16)]
  }

  lemma ByteHexWritesDigits()
    ensures WritesDigits(ByteHex)
  {
    forall b: byte
      ensures ByteHex(b) == [HexDigit(b as int / 16), HexDigit(b as int % 16)]
    {
      ByteHexDigits(b);
    }
  }

  /** Characters 2i and 2i+1 of a join by a digit writer are the digits of byte i. */
  lemma JoinDigitsAt(bytes: seq<byte>, f: byte -> string, i: int)
    requires WritesDigits(f) && 0 <= i < |bytes|
    ensures |Join(bytes, f)| == 2 * |bytes|
    ensures Join(bytes, f)[2 * i] == HexDigit(bytes[i] as int / 16)
    ensures Join(bytes, f)[2 * i + 1] == HexDigit(bytes[i] as int % 16)
  {
    assert TwoWide(f) by {
      forall b: byte ensures |f(b)| == 2 {
        assert f(b) == [HexDigit(b as int / 16), HexDigit(b as int % 16)];
      }
    }
    JoinAt(bytes, f, i);
    assert f(bytes[i]) == [HexDigit(bytes[i] as int / 16), HexDigit(bytes[i] as int % 16)];
  }

  /** Characters 2i and 2i+1 of the hexadecimal string are the high and low digit of byte i. */
  lemma HexAt(bytes: seq<byte>, i: int)
    requires 0 <= i < |bytes|
    ensures Hex(bytes)[2 * i] == HexDigit(bytes[i] as int / 16)
    ensures Hex(bytes)[2 * i + 1] == HexDigit(bytes[i] as int % 16)
  {
    ByteHexWritesDigits();
    JoinDigitsAt(bytes, ByteHex, i);
    assert Hex(bytes) == Join(bytes, ByteHex);
  }

  /** The joined string consists of hexadecimal digits only. */
  lemma HexIsHexString(bytes: seq<byte>)
    ensures IsHexString(Hex(bytes))
  {
    var h := Hex(bytes);
    forall k | 0 <= k < |h| ensures IsHexDigit(h[k]) {
      var i := k / 2;
      assert 0 <= i < |bytes| && (k == 2 * i || k == 2 * i + 1);
      HexAt(bytes, i);
    }
  }

  /** The first 2n characters are the digits of the first n bytes. */
  lemma HexPrefix(bytes: seq<byte>, n: nat)
    requires n <= |bytes|
    ensures Hex(bytes)[..2 * n] == Hex(bytes[..n])
  {
    assert bytes == bytes[..n] + bytes[n..];
    JoinConcat(bytes[..n], bytes[n..], ByteHex);
  }

  /** The access key: the joined digits cut to at most 50 characters. */
  function AccessKey(bytes: seq<byte>): (key: string)
    ensures |key| == Min(KEY_LENGTH, 2 * |bytes|)
    ensures IsHexString(key)
  {
    var hex := Hex(bytes);
    HexIsHexString(bytes);
    hex[..Min(KEY_LENGTH, |hex|)]
  }

  /** Reading a string of hexadecimal digits two at a time (a trailing odd digit is ignored). */
  function DecodeHex(s: string): (r: seq<byte>)
    requires IsHexString(s)
    ensures |r| == |s| / 2
  {
    if |s| < 2 then []
    else [(HexValue(s[0]) * 16 + HexValue(s[1])) as byte] + DecodeHex(s[2..])
  }

  /** Dropping the first two characters of the hexadecimal string drops the first byte. */
  lemma HexTail(bytes: seq<byte>)
    requires bytes != []
    ensures Hex(bytes)[2..] == Hex(bytes[1..])
  {
    assert Join(bytes, ByteHex) == ByteHex(bytes[0]) + Join(bytes[1..], ByteHex);
  }

  /** The two digits of a byte decode to that byte. */
  lemma DigitsDecode(b: byte)
    ensures (HexValue(HexDigit(b as int / 16)) * 16 + HexValue(HexDigit(b as int % 16))) as int == b as int
  {
    HexValueOfDigit(b as int / 16);
    HexValueOfDigit(b as int % 16);
  }

  /** Decoding the joined digits gives the bytes back. */
  lemma {:induction false} DecodeHexOfHex(bytes: seq<byte>)
    ensures IsHexString(Hex(bytes)) && DecodeHex(Hex(bytes)) == bytes
    decreases |bytes|
  {
    HexIsHexString(bytes);
    if bytes != [] {
      var h, tail := Hex(bytes), bytes[1..];
      HexTail(bytes);
      HexAt(bytes, 0);
      DigitsDecode(bytes[0]);
      DecodeHexOfHex(tail);
      assert DecodeHex(h) == [(HexValue(h[0]) * 16 + HexValue(h[1])) as byte] + DecodeHex(h[2..]);
    }
  }

  /** A key made from 32 bytes has 50 characters, all hexadecimal digits, and each of its
      25 pairs decodes to the corresponding byte: the key carries the first 25 bytes. */
  lemma KeyRoundTrip(bytes: seq<byte>)
    requires |bytes| == KEY_BYTES
    ensures |AccessKey(bytes)| == KEY_LENGTH
    ensures DecodeHex(AccessKey(bytes)) == bytes[..KEY_LENGTH / 2]
    ensures forall i :: 0 <= i < KEY_LENGTH / 2 ==>
      HexValue(AccessKey(bytes)[2 * i]) * 16 + HexValue(AccessKey(bytes)[2 * i + 1]) == bytes[i] as int
  {
    var key := AccessKey(bytes);
    HexPrefix(bytes, KEY_LENGTH / 2);
    assert key == Hex(bytes[..KEY_LENGTH / 2]);
    DecodeHexOfHex(bytes[..KEY_LENGTH / 2]);
    forall i | 0 <= i < KEY_LENGTH / 2
      ensures HexValue(key[2 * i]) * 16 + HexValue(key[2 * i + 1]) == bytes[i] as int
    {
      HexAt(bytes, i);
      HexValueOfDigit(bytes[i] as int / 16);
      HexValueOfDigit(bytes[i] as int % 16);
    }
  }

  // ---------------------------------------------------------------- the link

  /** The path segment of the public registration route. */
  const ROUTE_WORD: string := "CreateGroups"

  /** `${FRONT_URL}/CreateGroups/${nextId}/${key}`: the key is the last segment, so the
      link contains it. */
  function Link(frontUrl: string, nextId: int, key: string): (url: string)
    ensures |url| >= |key| && url[|url| - |key|..] == key
    ensures Includes(url, key)
  {
    var prefix := frontUrl + "/" + ROUTE_WORD + "/" + NumberString(nextId) + "/";
    IncludesInfix(prefix, key, "");
    assert prefix + key + "" == prefix + key;
    prefix + key
  }

  /** Two strings with the same head and tail around them are equal. */
  lemma MiddleOfConcat(head: string, m1: string, m2: string, tail: string)
    requires head + m1 + tail == head + m2 + tail
    ensures m1 == m2
  {
    var u1, u2 := head + m1 + tail, head + m2 + tail;
    assert |m1| == |m2|;
    assert u1[|head|..|head| + |m1|] == m1;
    assert u2[|head|..|head| + |m2|] == m2;
  }

  /** The link is the fixed head, the written id and the fixed tail. */
  lemma LinkParts(frontUrl: string, n: int, key: string)
    ensures Link(frontUrl, n, key) == (frontUrl + "/" + ROUTE_WORD + "/") + NumberString(n) + ("/" + key)
  {
    var head := frontUrl + "/" + ROUTE_WORD + "/";
    var id := NumberString(n);
    assert head + id + "/" + key == head + id + ("/" + key);
  }

  /** For a given front URL and key, the link names exactly one id. */
  lemma LinkNamesOneId(frontUrl: string, a: int, b: int, key: string)
    ensures Link(frontUrl, a, key) == Link(frontUrl, b, key) ==> a == b
  {
    if Link(frontUrl, a, key) == Link(frontUrl, b, key) {
      LinkParts(frontUrl, a, key);
      LinkParts(frontUrl, b, key);
      MiddleOfConcat(frontUrl + "/" + ROUTE_WORD + "/", NumberString(a), NumberString(b), "/" + key);
      NumberStringInjective(a, b);
    }
  }

  /** Every composed link also contains the route's own word. */
  lemma LinkContainsRouteWord(frontUrl: string, nextId: int, key: string)
    ensures Includes(Link(frontUrl, nextId, key), ROUTE_WORD)
  {
    var before := frontUrl + "/";
    var after := "/" + NumberString(nextId) + "/" + key;
    assert Link(frontUrl, nextId, key) == before + ROUTE_WORD + after;
    IncludesInfix(before, ROUTE_WORD, after);
  }

  // ---------------------------------------------------------------- the component

  /** The project being edited, as the client holds it. */
  datatype ClientProject = ClientProject(
    id: int,
    name: string,
    githubOrg: string,
    minStudents: int,
    maxStudents: int,
    groupConvention: string,
    uniqueKey: Option<string>,
    uniqueUrl: Option<string>)

  const DEFAULT_CONVENTION: string := "Groupe-XX"

  datatype Verb = Post | Put

  /** The JSON body of the submit request; key and link are present only on creation. */
  datatype Body = Body(
    name: string,
    githubOrg: string,
    minStudents: int,
    maxStudents: int,
    groupConvention: string,
    uniqueKey: Option<string>,
    uniqueUrl: Option<string>)

  datatype SubmitRequest = SubmitRequest(verb: Verb, path: string, body: Body)

  /** The form's state. */
  class Form {
    const editing: Option<ClientProject>
    var name: string
    var githubOrg: string
    var minStudents: int
    var maxStudents: int
    const groupConvention: string
    var generatedUrl: string
    var uniqueKey: string

    /** The initial state: the edited project's values with the `||` fallbacks. */
    constructor (editing: Option<ClientProject>)
      ensures this.editing == editing
      ensures editing.None? ==>
        && name == "" && githubOrg == "" && minStudents == 1 && maxStudents == 1
        && groupConvention == DEFAULT_CONVENTION && generatedUrl == "" && uniqueKey == ""
      ensures editing.Some? ==>
        && name == editing.value.name && githubOrg == editing.value.githubOrg
        && minStudents == OrNumber(Some(editing.value.minStudents), 1)
        && maxStudents == OrNumber(Some(editing.value.maxStudents), 1)
        && groupConvention == OrString(Some(editing.value.groupConvention), DEFAULT_CONVENTION)
        && generatedUrl == OrString(editing.value.uniqueUrl, "")
        && uniqueKey == OrString(editing.value.uniqueKey, "")
    {
      this.editing := editing;
      if editing.None? {
        name, githubOrg, minStudents, maxStudents := "", "", 1, 1;
        groupConvention := DEFAULT_CONVENTION;
        generatedUrl, uniqueKey := "", "";
      } else {
        var p := editing.value;
        name, githubOrg := p.name, p.githubOrg;
        minStudents := OrNumber(Some(p.minStudents), 1);
        maxStudents := OrNumber(Some(p.maxStudents), 1);
        groupConvention := OrString(Some(p.groupConvention), DEFAULT_CONVENTION);
        generatedUrl := OrString(p.uniqueUrl, "");
        uniqueKey := OrString(p.uniqueKey, "");
      }
    }

    /** The effect that prepares key and link. When editing it does nothing. `nextId` is
        the server's answer to the next-id request (None when it failed) and `random` the
        32 bytes `crypto.getRandomValues` writes. */
    method GenerateAccess(frontUrl: string, nextId: Option<int>, random: seq<byte>)
      requires |random| == KEY_BYTES
      modifies this`uniqueKey, this`generatedUrl
      ensures editing.Some? || nextId.None? ==>
        uniqueKey == old(uniqueKey) && generatedUrl == old(generatedUrl)
      ensures editing.None? && nextId.Some? ==>
        && uniqueKey == AccessKey(random)
        && generatedUrl == Link(frontUrl, nextId.value, uniqueKey)
    {
      if editing.Some? {
        return;
      }
      if nextId.None? {
        return;
      }
      var key := AccessKey(random);
      uniqueKey := key;
      generatedUrl := Link(frontUrl, nextId.value, key);
    }

    /** `Boolean(editingProject?.id)`. */
    predicate IsEditing(): (r: bool)
      ensures r <==> editing.Some? && TruthyNumber(Some(Finite(editing.value.id)))
    {
      editing.Some? && editing.value.id != 0
    }

    /** The request `handleSubmit` sends: an update of the edited project, or a creation
        that carries the key and the link. */
    method Submit(apiUrl: string) returns (request: SubmitRequest)
      ensures request.verb == (if IsEditing() then Put else Post)
      ensures IsEditing() ==> request.path == apiUrl + "/projects/" + NumberString(editing.value.id)
      ensures !IsEditing() ==> request.path == apiUrl + "/projects"
      ensures request.body.name == name && request.body.githubOrg == githubOrg
      ensures request.body.minStudents == minStudents && request.body.maxStudents == maxStudents
      ensures request.body.groupConvention == groupConvention
      ensures IsEditing() ==> request.body.uniqueKey.None? && request.body.uniqueUrl.None?
      ensures !IsEditing() ==>
        request.body.uniqueKey == Some(uniqueKey) && request.body.uniqueUrl == Some(generatedUrl)
    {
      var isEditing := IsEditing();
      var path := if isEditing then apiUrl + "/projects/" + NumberString(editing.value.id)
                  else apiUrl + "/projects";
      var body := Body(name, githubOrg, minStudents, maxStudents, groupConvention, None, None);
      if !isEditing {
        body := body.(uniqueKey := Some(uniqueKey), uniqueUrl := Some(generatedUrl));
      }
      request := SubmitRequest(if isEditing then Put else Post, path, body);
    }
  }
}
