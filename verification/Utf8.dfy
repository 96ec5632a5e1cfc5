/**
 * Well-formed UTF-8, as `core::str::from_utf8` checks it, against the encoder
 * of RFC 3629, section 3: exactly the encodings of scalar values pass.
 */
module Utf8 {
  import opened Octets

  predicate Cont(b: Byte) {
    0x80 <= b < 0xC0
  }

  // Length of the well-formed UTF-8 sequence at the start of s, or 0.
  function Utf8Char(s: seq<Byte>): nat
    requires s != []
  {
    if s[0] < 0x80 then 1
    else if 0xC2 <= s[0] <= 0xDF then (if |s| >= 2 && Cont(s[1]) then 2 else 0)
    else if 0xE0 <= s[0] <= 0xEF then
      (if |s| >= 3 && Cont(s[1]) && Cont(s[2]) && (s[0] == 0xE0 ==> 0xA0 <= s[1]) && (s[0] == 0xED ==> s[1] < 0xA0)
       then 3 else 0)
    else if 0xF0 <= s[0] <= 0xF4 then
      (if |s| >= 4 && Cont(s[1]) && Cont(s[2]) && Cont(s[3]) && (s[0] == 0xF0 ==> 0x90 <= s[1])
       && (s[0] == 0xF4 ==> s[1] < 0x90)
       then 4 else 0)
    else 0
  }

  // Well-formed from i to the end.
  predicate Utf8From(s: seq<Byte>, i: nat)
    requires i <= |s|
    decreases |s| - i
  {
    i == |s| || (0 < Utf8Char(s[i..]) <= |s| - i && Utf8From(s, i + Utf8Char(s[i..])))
  }

  predicate ValidUtf8(s: seq<Byte>) {
    Utf8From(s, 0)
  }

  lemma {:induction false} Ascii(s: seq<Byte>, i: nat)
    requires i <= |s| && forall j :: i <= j < |s| ==> s[j] < 0x80
    ensures Utf8From(s, i)
    decreases |s| - i
  {
    if i < |s| {
      Ascii(s, i + 1);
    }
  }

  // ---------- the encoder ----------

  predicate Scalar(c: nat) {
    c < 0x11_0000 && !(0xD800 <= c < 0xE000)
  }

  function Encode(c: nat): (s: seq<Byte>)
    requires Scalar(c)
    ensures 1 <= |s| <= 4
  {
    if c < 0x80 then [c]
    else if c < 0x800 then [0xC0 + c / 0x40, 0x80 + c % 0x40]
    else if c < 0x1_0000 then [0xE0 + c / 0x1000, 0x80 + c / 0x40 % 0x40, 0x80 + c % 0x40]
    else [0xF0 + c / 0x4_0000, 0x80 + c / 0x1000 % 0x40, 0x80 + c / 0x40 % 0x40, 0x80 + c % 0x40]
  }

  function EncodeAll(text: seq<nat>): seq<Byte>
    requires forall i :: 0 <= i < |text| ==> Scalar(text[i])
  {
    if text == [] then [] else Encode(text[0]) + EncodeAll(text[1..])
  }

  // An encoded character is taken whole.
  lemma EncodedChar(c: nat, rest: seq<Byte>)
    requires Scalar(c)
    ensures Utf8Char(Encode(c) + rest) == |Encode(c)|
  {
    var e := Encode(c);
    CharAlone(c, e);
    CharPrefix(e, rest);
  }

  lemma CharAlone(c: nat, e: seq<Byte>)
    requires Scalar(c) && e == Encode(c)
    ensures Utf8Char(e) == |e|
  {
    if 0x800 <= c < 0x1_0000 {
      Quotients(c, c / 0x40);
    } else if 0x1_0000 <= c {
      Quotients(c, c / 0x40);
      Quotients(c / 0x40, c / 0x1000);
    }
  }

  lemma Quotients(c: nat, q: nat)
    requires q == c / 0x40
    ensures q * 0x40 <= c < q * 0x40 + 0x40 && c / 0x1000 == q / 0x40 && c / 0x4_0000 == q / 0x1000
  {
  }

  // Only the bytes of the sequence itself are looked at.
  lemma CharPrefix(e: seq<Byte>, rest: seq<Byte>)
    requires e != [] && Utf8Char(e) == |e|
    ensures Utf8Char(e + rest) == |e|
  {
    hide Cont;
    var s := e + rest;
    assert s[0] == e[0] && forall i :: 0 <= i < |e| ==> s[i] == e[i];
  }

  // What is taken is an encoded character.
  lemma DecodedChar(s: seq<Byte>) returns (c: nat)
    requires s != [] && 0 < Utf8Char(s)
    ensures Scalar(c) && Utf8Char(s) <= |s| && Encode(c) == s[..Utf8Char(s)]
  {
    var n := Utf8Char(s);
    if n == 1 {
      c := s[0];
    } else if n == 2 {
      c := Two(s[0], s[1]);
    } else if n == 3 {
      c := Three(s[0], s[1], s[2]);
    } else {
      c := Four(s[0], s[1], s[2], s[3]);
    }
  }

  lemma Two(a: Byte, b: Byte) returns (c: nat)
    requires 0xC2 <= a <= 0xDF && Cont(b)
    ensures Scalar(c) && Encode(c) == [a, b]
  {
    c := (Num(a) - 0xC0) * 0x40 + (Num(b) - 0x80);
    assert c / 0x40 == a - 0xC0 && c % 0x40 == b - 0x80;
  }

  lemma Three(a: Byte, b: Byte, d: Byte) returns (c: nat)
    requires 0xE0 <= a <= 0xEF && Cont(b) && Cont(d) && (a == 0xE0 ==> 0xA0 <= b) && (a == 0xED ==> b < 0xA0)
    ensures Scalar(c) && Encode(c) == [a, b, d]
  {
    var q := (Num(a) - 0xE0) * 0x40 + (Num(b) - 0x80);
    c := q * 0x40 + (Num(d) - 0x80);
    assert c / 0x40 == q && c % 0x40 == d - 0x80;
    assert q / 0x40 == a - 0xE0 && q % 0x40 == b - 0x80;
    assert c / 0x1000 == q / 0x40;
  }

  lemma Four(a: Byte, b: Byte, d: Byte, e: Byte) returns (c: nat)
    requires 0xF0 <= a <= 0xF4 && Cont(b) && Cont(d) && Cont(e) && (a == 0xF0 ==> 0x90 <= b) && (a == 0xF4 ==> b < 0x90)
    ensures Scalar(c) && Encode(c) == [a, b, d, e]
  {
    var p := (Num(a) - 0xF0) * 0x40 + (Num(b) - 0x80);
    var q := p * 0x40 + (Num(d) - 0x80);
    c := q * 0x40 + (Num(e) - 0x80);
    assert c / 0x40 == q && c % 0x40 == e - 0x80;
    assert q / 0x40 == p && q % 0x40 == d - 0x80;
    assert p / 0x40 == a - 0xF0 && p % 0x40 == b - 0x80;
    assert c / 0x1000 == p && c / 0x4_0000 == p / 0x40;
  }

  lemma {:induction false} EncodedFrom(pre: seq<Byte>, text: seq<nat>)
    requires forall i :: 0 <= i < |text| ==> Scalar(text[i])
    ensures Utf8From(pre + EncodeAll(text), |pre|)
    decreases |text|
  {
    hide Encode, Utf8Char, Scalar;
    if text != [] {
      var c, rest := Encode(text[0]), EncodeAll(text[1..]);
      EncodedChar(text[0], rest);
      EncodedFrom(pre + c, text[1..]);
      OneBefore(pre, c, rest);
    }
  }

  lemma OneBefore(pre: seq<Byte>, c: seq<Byte>, rest: seq<Byte>)
    requires c != [] && Utf8Char(c + rest) == |c| && Utf8From((pre + c) + rest, |pre + c|)
    ensures Utf8From(pre + (c + rest), |pre|)
  {
    hide Utf8Char;
    var s := pre + (c + rest);
    assert s == (pre + c) + rest && s[|pre|..] == c + rest;
  }

  lemma {:induction false} DecodedFrom(s: seq<Byte>, i: nat) returns (text: seq<nat>)
    requires i <= |s| && Utf8From(s, i)
    ensures (forall j :: 0 <= j < |text| ==> Scalar(text[j])) && EncodeAll(text) == s[i..]
    decreases |s| - i
  {
    hide Utf8Char, Encode, Scalar;
    if i == |s| {
      text := [];
    } else {
      var n := Utf8Char(s[i..]);
      var c := DecodedChar(s[i..]);
      var rest := DecodedFrom(s, i + n);
      text := [c] + rest;
      assert text[1..] == rest && s[i..][n..] == s[i + n..];
      assert s[i..] == s[i..][..n] + s[i..][n..];
    }
  }

  ghost predicate Encoded(s: seq<Byte>, text: seq<nat>) {
    (forall i :: 0 <= i < |text| ==> Scalar(text[i])) && EncodeAll(text) == s
  }

  // Valid means: the encoding of some text.
  lemma ValidIff(s: seq<Byte>)
    ensures ValidUtf8(s) <==> exists text :: Encoded(s, text)
  {
    if ValidUtf8(s) {
      var text := DecodedFrom(s, 0);
      assert s[0..] == s;
      assert Encoded(s, text);
    }
    if exists text :: Encoded(s, text) {
      var text :| Encoded(s, text);
      EncodedFrom([], text);
      assert [] + EncodeAll(text) == s;
    }
  }
}
