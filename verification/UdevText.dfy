/**
 * What sanitizing keeps and what it replaces, told from characters: the UTF-8 encoding of section 3 of
 * RFC 3629 as it is written, and ASCII by its codes (libraries/libhwdb/UdevSanitize.cpp).
 */
module UdevText {
  import opened Common
  import opened UdevSanitize

  // --- Characters ----------------------------------------------------------------------

  /** Digits, letters, and # + - . : = @ _ / space $ % ? and comma. */
  predicate Plain(c: byte) {
    48 <= c <= 57 || 65 <= c <= 90 || 97 <= c <= 122 || c in {35, 43, 45, 46, 58, 61, 64, 95, 47, 32, 36, 37, 63, 44}
  }

  lemma PlainIff(c: byte)
    ensures Allowed(c) <==> Plain(c)
  {
    assert '#' as int == 35 && '+' as int == 43 && '-' as int == 45 && '.' as int == 46 && ':' as int == 58;
    assert '=' as int == 61 && '@' as int == 64 && '_' as int == 95 && '/' as int == 47 && ' ' as int == 32;
    assert '$' as int == 36 && '%' as int == 37 && '?' as int == 63 && ',' as int == 44;
    if c < 128 {
      InFirst(c);
      InSecond(c);
    }
  }

  lemma InFirst(c: byte)
    requires c < 128
    ensures c as char in "#+-.:=@_" <==> c in {35, 43, 45, 46, 58, 61, 64, 95}
  {
    var s := "#+-.:=@_";
    assert s[0] == '#' && s[1] == '+' && s[2] == '-' && s[3] == '.' && s[4] == ':' && s[5] == '=' && s[6] == '@' && s[7] == '_';
  }

  lemma InSecond(c: byte)
    requires c < 128
    ensures c as char in "/ $%?," <==> c in {47, 32, 36, 37, 63, 44}
  {
    var s := "/ $%?,";
    assert s[0] == '/' && s[1] == ' ' && s[2] == '$' && s[3] == '%' && s[4] == '?' && s[5] == ',';
  }

  /** A code point beyond ASCII, in two to four bytes. */
  function Encode(code: nat): seq<byte>
    requires 0x80 <= code < 0x11_0000
  {
    if code < 0x800 then [0xc0 + code / 0x40, 0x80 + code % 0x40]
    else if code < 0x1_0000 then [0xe0 + code / 0x1000, 0x80 + code / 0x40 % 0x40, 0x80 + code % 0x40]
    else [0xf0 + code / 0x4_0000, 0x80 + code / 0x1000 % 0x40, 0x80 + code / 0x40 % 0x40, 0x80 + code % 0x40]
  }

  datatype Token = Character(c: byte) | Escape | CodePoint(code: nat)

  predicate Good(t: Token) {
    match t
    case Character(c) => Plain(c)
    case Escape => true
    case CodePoint(code) => 0x80 <= code < 0x11_0000
  }

  function Bytes(t: Token): seq<byte>
    requires Good(t)
  {
    match t
    case Character(c) => [c]
    case Escape => [92, 120]
    case CodePoint(code) => Encode(code)
  }

  ghost predicate AllGood(tokens: seq<Token>) { forall t :: t in tokens ==> Good(t) }

  function Text(tokens: seq<Token>): seq<byte>
    requires AllGood(tokens)
  {
    if tokens == [] then [] else Bytes(tokens[0]) + Text(tokens[1..])
  }

  // --- What is kept --------------------------------------------------------------------

  /** How many continuation bytes have to follow. */
  function Following(lead: byte): nat {
    if 0xc0 <= lead < 0xe0 then 1 else if 0xe0 <= lead < 0xf0 then 2 else if 0xf0 <= lead < 0xf8 then 3 else 0
  }

  /** The byte and what follows it are a UTF-8 sequence of more than one byte. */
  ghost predicate Begins(lead: byte, rest: seq<byte>) {
    0 < Following(lead) <= |rest| && forall k :: 0 <= k < Following(lead) ==> 0x80 <= rest[k] < 0xc0
  }

  lemma {:induction false} ContinuedIff(s: seq<byte>, k: nat)
    requires k <= |s|
    ensures Continued(s, k) <==> forall i :: k <= i < |s| ==> 0x80 <= s[i] < 0xc0
    decreases |s| - k
  {
    if k < |s| {
      ContinuedIff(s, k + 1);
    }
  }

  lemma SequenceIff(lead: byte, rest: seq<byte>)
    ensures Utf8SequenceLength([lead] + rest) == if Begins(lead, rest) then 1 + Following(lead) else 0
  {
    var s, n := [lead] + rest, 1 + Following(lead);
    if n <= |s| && Following(lead) > 0 {
      ContinuedIff(s[..n], 1);
      assert forall k :: 0 <= k < Following(lead) ==> s[..n][k + 1] == rest[k];
      assert forall i :: 1 <= i < n ==> s[..n][i] == rest[i - 1];
    }
  }

  lemma EncodedBegins(code: nat, rest: seq<byte>)
    requires 0x80 <= code < 0x11_0000
    ensures Begins(Encode(code)[0], Encode(code)[1..] + rest) && |Encode(code)| == 1 + Following(Encode(code)[0])
  {
  }

  lemma TokenKept(t: Token, rest: seq<byte>)
    requires Good(t)
    ensures Kept(Bytes(t) + rest) == |Bytes(t)| > 0
  {
    var s := Bytes(t) + rest;
    match t
    case Character(c) =>
      PlainIff(c);
    case Escape =>
      PlainIff(92);
    case CodePoint(code) =>
      EncodedBegins(code, rest);
      PlainIff(s[0]);
      assert s == [s[0]] + (Encode(code)[1..] + rest);
      SequenceIff(s[0], Encode(code)[1..] + rest);
  }

  lemma KeptFirst(head: seq<byte>, behind: seq<byte>)
    requires head != [] && Kept(head + behind) == |head|
    ensures Sanitized(head + behind) == head + Sanitized(behind)
  {
    assert (head + behind)[|head|..] == behind && (head + behind)[..|head|] == head;
  }

  lemma JoinedThen(a: seq<byte>, b: seq<byte>, c: seq<byte>)
    ensures (a + b) + c == a + (b + c)
  {
  }

  /** Clean values are kept whatever follows them. */
  lemma {:induction false} CleanThen(s: seq<byte>, rest: seq<byte>)
    requires Clean(s)
    ensures Sanitized(s + rest) == s + Sanitized(rest)
    decreases |s|
  {
    if s == [] {
      assert s + rest == rest;
    } else {
      var k := Kept(s);
      var head, tail := s[..k], s[k..];
      assert s == head + tail;
      JoinedThen(head, tail, rest);
      JoinedThen(head, tail, Sanitized(rest));
      KeptAlone(s, tail + rest);
      KeptFirst(head, tail + rest);
      CleanThen(tail, rest);
    }
  }

  /** Text of such characters is clean. */
  lemma {:induction false} TextIsClean(tokens: seq<Token>)
    requires AllGood(tokens)
    ensures Clean(Text(tokens))
    decreases |tokens|
  {
    if tokens != [] {
      var head, behind := Bytes(tokens[0]), Text(tokens[1..]);
      TokenKept(tokens[0], behind);
      assert (head + behind)[|head|..] == behind;
      TextIsClean(tokens[1..]);
    }
  }

  /** Text of such characters is kept, whatever follows it. */
  lemma TextKept(tokens: seq<Token>, rest: seq<byte>)
    requires AllGood(tokens)
    ensures Sanitized(Text(tokens) + rest) == Text(tokens) + Sanitized(rest)
  {
    TextIsClean(tokens);
    CleanThen(Text(tokens), rest);
  }

  // --- What is replaced ----------------------------------------------------------------

  /** Nothing that is kept begins with this byte here. */
  ghost predicate Barred(c: byte, rest: seq<byte>) {
    !Plain(c) && !(c == 92 && rest != [] && rest[0] == 120) && !Begins(c, rest)
  }

  /** White space becomes a space, anything else an underscore. */
  function Substitute(c: byte): byte { if 9 <= c <= 13 || c == 32 then 32 else 95 }

  lemma BarredIff(c: byte, rest: seq<byte>)
    ensures Kept([c] + rest) == 0 <==> Barred(c, rest)
  {
    PlainIff(c);
    SequenceIff(c, rest);
  }

  lemma BarredReplaced(c: byte, rest: seq<byte>)
    requires Barred(c, rest)
    ensures Sanitized([c] + rest) == [Substitute(c)] + Sanitized(rest)
  {
    BarredIff(c, rest);
    assert ([c] + rest)[1..] == rest;
  }

  /** A byte nothing kept begins with is replaced, and the bytes around it are as they would be without it. */
  lemma Replaced(s: seq<byte>, c: byte, rest: seq<byte>)
    requires Clean(s) && Barred(c, rest)
    ensures Sanitized(s + ([c] + rest)) == s + ([Substitute(c)] + Sanitized(rest))
  {
    CleanThen(s, [c] + rest);
    BarredReplaced(c, rest);
  }

  /** Every value is clean up to the first byte that is replaced. */
  lemma {:induction false} CleanUpTo(s: seq<byte>) returns (n: nat)
    ensures n <= |s| && Clean(s[..n]) && (n < |s| ==> Barred(s[n], s[n + 1..]))
    decreases |s|
  {
    n := 0;
    if s != [] {
      assert s == [s[0]] + s[1..];
      BarredIff(s[0], s[1..]);
      var k := Kept(s);
      if k > 0 {
        var m := CleanUpTo(s[k..]);
        n := k + m;
        PrefixClean(s, m);
        assert s[k..][m..] == s[n..];
      }
    }
  }

  lemma PrefixClean(s: seq<byte>, m: nat)
    requires s != [] && Kept(s) > 0 && Kept(s) + m <= |s| && Clean(s[Kept(s)..][..m])
    ensures Clean(s[..Kept(s) + m])
  {
    var k := Kept(s);
    KeptAlone(s, s[k..][..m]);
    assert s[..k + m] == s[..k] + s[k..][..m];
    assert s[..k + m][k..] == s[k..][..m];
  }
}
