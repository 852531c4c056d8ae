/**
 * udev's replacement of characters in attribute values
 * (libraries/libhwdb/UdevSanitize.cpp; UTF-8 as in section 3 of RFC 3629, structure only).
 */
module UdevSanitize {
  import opened Common

  type byte = x: int | 0 <= x < 256

  predicate IsDigit(c: byte) { '0' as int <= c <= '9' as int }

  predicate IsAlpha(c: byte) { 'A' as int <= c <= 'Z' as int || 'a' as int <= c <= 'z' as int }

  predicate IsAllowedChar(c: byte) {
    IsDigit(c) || IsAlpha(c) || (c < 128 && c as char in "#+-.:=@_")
  }

  predicate IsAllowedInputChar(c: byte) { c < 128 && c as char in "/ $%?," }

  predicate Allowed(c: byte) { IsAllowedChar(c) || IsAllowedInputChar(c) }

  predicate Continuation(c: byte) { 0x80 <= c < 0xc0 }

  /** How long a sequence with this first byte is; 0 for one that starts none. */
  function LeadLength(lead: byte): nat {
    if 0xc0 <= lead < 0xe0 then 2
    else if 0xe0 <= lead < 0xf0 then 3
    else if 0xf0 <= lead < 0xf8 then 4
    else 0
  }

  /** Nothing but continuation bytes from k on. */
  predicate Continued(s: seq<byte>, k: nat)
    decreases |s| - k
  {
    k >= |s| || (Continuation(s[k]) && Continued(s, k + 1))
  }

  /** Length of the UTF-8 sequence s starts with, or 0. */
  function Utf8SequenceLength(s: seq<byte>): (n: nat)
    requires s != []
    ensures n <= |s| && n != 1
  {
    var length := LeadLength(s[0]);
    if length <= |s| && Continued(s[..length], 1) then length else 0
  }

  /** How many bytes at the start of s are kept as they are; 0 when the first one is replaced. */
  function Kept(s: seq<byte>): (n: nat)
    requires s != []
    ensures n <= |s|
  {
    if Allowed(s[0]) then 1
    else if s[0] == '\\' as int && |s| > 1 && s[1] == 'x' as int then 2
    else Utf8SequenceLength(s)
  }

  function Replacement(c: byte): byte { if IsSpace(c as char) then ' ' as int else '_' as int }

  function Advance(s: seq<byte>): (n: nat)
    requires s != []
    ensures 0 < n <= |s|
  {
    if Kept(s) > 0 then Kept(s) else 1
  }

  /** What the first token of s becomes. */
  function Head(s: seq<byte>): (r: seq<byte>)
    requires s != []
    ensures |r| == Advance(s)
  {
    if Kept(s) > 0 then s[..Kept(s)] else [Replacement(s[0])]
  }

  function Sanitized(s: seq<byte>): (r: seq<byte>)
    ensures |r| == |s|
    decreases |s|
  {
    if s == [] then [] else Head(s) + Sanitized(s[Advance(s)..])
  }

  /** Made of nothing but allowed bytes, "\x" escapes and UTF-8 sequences. */
  predicate Clean(s: seq<byte>)
    decreases |s|
  {
    s == [] || (Kept(s) > 0 && Clean(s[Kept(s)..]))
  }

  /** What is kept at the start does not depend on what follows it. */
  lemma KeptAlone(s: seq<byte>, rest: seq<byte>)
    requires s != [] && Kept(s) > 0
    ensures Kept(s[..Kept(s)] + rest) == Kept(s)
  {
    var n := Kept(s);
    assert (s[..n] + rest)[..n] == s[..n];
  }

  lemma {:induction false} SanitizedIsClean(s: seq<byte>)
    ensures Clean(Sanitized(s))
    decreases |s|
  {
    if s != [] {
      var rest := Sanitized(s[Advance(s)..]);
      SanitizedIsClean(s[Advance(s)..]);
      assert (Head(s) + rest)[Advance(s)..] == rest;
      if Kept(s) > 0 {
        KeptAlone(s, rest);
      }
    }
  }

  lemma {:induction false} CleanKept(s: seq<byte>)
    requires Clean(s)
    ensures Sanitized(s) == s
    decreases |s|
  {
    if s != [] {
      CleanKept(s[Kept(s)..]);
    }
  }

  /** Sanitizing leaves alone exactly the values that need nothing replaced. */
  lemma {:induction false} UnchangedIffClean(s: seq<byte>)
    ensures Sanitized(s) == s <==> Clean(s)
  {
    SanitizedIsClean(s);
    if Clean(s) {
      CleanKept(s);
    }
  }

  /** Twice is once. */
  lemma {:induction false} Idempotent(s: seq<byte>)
    ensures Sanitized(Sanitized(s)) == Sanitized(s)
  {
    SanitizedIsClean(s);
    CleanKept(Sanitized(s));
  }

  lemma ConcatAt(a: seq<byte>, b: seq<byte>, i: nat)
    requires i < |a| + |b|
    ensures (a + b)[i] == if i < |a| then a[i] else b[i - |a|]
  {
  }

  lemma HeadAt(s: seq<byte>, i: nat)
    requires s != [] && i < Advance(s)
    ensures Head(s)[i] == s[i] || (!Allowed(s[i]) && Head(s)[i] == Replacement(s[i]))
  {
  }

  /** A byte changes only if it is not allowed, and then to a space, if it was one, or to '_'. */
  lemma {:induction false} OnlyReplacements(s: seq<byte>, i: nat)
    requires i < |s|
    ensures Sanitized(s)[i] == s[i] || (!Allowed(s[i]) && Sanitized(s)[i] == Replacement(s[i]))
    decreases |s|
  {
    var n := Advance(s);
    ConcatAt(Head(s), Sanitized(s[n..]), i);
    if i < n {
      HeadAt(s, i);
    } else {
      OnlyReplacements(s[n..], i - n);
    }
  }

  /** In the result, what is not allowed is a backslash before an 'x' or a byte of a UTF-8 sequence. */
  lemma {:induction false} CleanBytes(s: seq<byte>, i: nat)
    requires Clean(s) && i < |s| && !Allowed(s[i])
    ensures s[i] >= 0x80 || (s[i] == '\\' as int && i + 1 < |s| && s[i + 1] == 'x' as int)
    decreases |s|
  {
    if i >= Kept(s) {
      CleanBytes(s[Kept(s)..], i - Kept(s));
    } else {
      TokenBytes(s, i);
    }
  }

  /** A kept token is one allowed byte, a backslash and an 'x', or bytes of a UTF-8 sequence. */
  lemma TokenBytes(s: seq<byte>, i: nat)
    requires s != [] && i < Kept(s)
    ensures Allowed(s[i]) || s[i] >= 0x80 || (i == 0 && s[i] == '\\' as int && Kept(s) == 2 && s[1] == 'x' as int)
  {
    if LeadLength(s[0]) > 0 && i > 0 {
      ContinuedAt(s[..LeadLength(s[0])], 1, i);
    }
  }

  lemma {:induction false} ContinuedAt(s: seq<byte>, k: nat, i: nat)
    requires k <= i < |s| && Continued(s, k)
    ensures Continuation(s[i])
    decreases i - k
  {
    if k < i {
      ContinuedAt(s, k + 1, i);
    }
  }

  method Utf8Length(s: seq<byte>, i: nat) returns (length: nat)
    requires i < |s|
    ensures length == Utf8SequenceLength(s[i..])
  {
    length := LeadLength(s[i]);
    if length == 0 || i + length > |s| {
      return 0;
    }
    for k := 1 to length
      invariant Continued(s[i..][..length], 1) == Continued(s[i..][..length], k)
    {
      assert s[i..][..length][k] == s[i + k];
      if !Continuation(s[i + k]) {
        return 0;
      }
    }
  }

  /** The three tests of the loop: how far it moves on without changing anything, 0 for not at all. */
  method TokenLength(s: seq<byte>, i: nat) returns (length: nat)
    requires i < |s|
    ensures length == Kept(s[i..])
  {
    assert s[i..][0] == s[i] && (i + 1 < |s| ==> s[i..][1] == s[i + 1]);
    if IsAllowedChar(s[i]) || IsAllowedInputChar(s[i]) {
      return 1;
    }
    if s[i] == '\\' as int && i + 1 < |s| && s[i + 1] == 'x' as int {
      return 2;
    }
    length := Utf8Length(s, i);
  }

  method Sanitize(value: seq<byte>) returns (result: seq<byte>)
    ensures result == Sanitized(value)
  {
    result := value;
    ghost var all, tail := Sanitized(value), Sanitized(value);
    var i := 0;
    assert value[0..] == value && value[..0] == [] && [] + all == all;
    while i < |result|
      invariant SanitizedSoFar(result, value, i, tail, all)
      decreases |result| - i
    {
      result, i, tail := SanitizeToken(result, value, i, tail, all);
    }
  }

  /** The body of the loop. */
  method SanitizeToken(before: seq<byte>, ghost value: seq<byte>, i: nat, ghost tail: seq<byte>, ghost all: seq<byte>)
    returns (result: seq<byte>, next: nat, ghost after: seq<byte>)
    requires SanitizedSoFar(before, value, i, tail, all) && i < |before|
    ensures SanitizedSoFar(result, value, next, after, all) && i < next
  {
    var length := TokenLength(before, i);
    if length > 0 {
      after := KeepStep(before, value, i, length, tail, all);
      result, next := before, i + length;
    } else {
      var c := if IsSpace(before[i] as char) then ' ' as int else '_' as int;
      after := ReplaceStep(before, value, i, c, tail, all);
      result, next := before[i := c], i + 1;
    }
  }

  /** The bytes before i are done, the rest is untouched, and tail is what it will become. */
  ghost predicate SanitizedSoFar(result: seq<byte>, value: seq<byte>, i: nat, tail: seq<byte>, all: seq<byte>) {
    i <= |result| == |value| && result[i..] == value[i..] && tail == Sanitized(value[i..]) && result[..i] + tail == all
  }

  lemma Associate(a: seq<byte>, b: seq<byte>, c: seq<byte>)
    ensures a + b + c == a + (b + c)
  {
  }

  lemma KeepStep(result: seq<byte>, value: seq<byte>, i: nat, n: nat, tail: seq<byte>, all: seq<byte>)
    returns (after: seq<byte>)
    requires SanitizedSoFar(result, value, i, tail, all) && i < |value| && 0 < n == Kept(result[i..])
    ensures SanitizedSoFar(result, value, i + n, after, all)
  {
    var rest := value[i..];
    after := Sanitized(value[i + n..]);
    Tails(result, value, i, n);
    assert tail == Head(rest) + after;
    Associate(result[..i], Head(rest), after);
  }

  lemma ReplaceStep(result: seq<byte>, value: seq<byte>, i: nat, c: byte, tail: seq<byte>, all: seq<byte>)
    returns (after: seq<byte>)
    requires SanitizedSoFar(result, value, i, tail, all) && i < |value|
    requires Kept(result[i..]) == 0 && c == Replacement(result[i])
    ensures SanitizedSoFar(result[i := c], value, i + 1, after, all)
  {
    var replaced, rest := result[i := c], value[i..];
    after := Sanitized(value[i + 1..]);
    Tails(result, value, i, 1);
    assert replaced[i + 1..] == result[i + 1..];
    assert replaced[..i + 1] == result[..i] + Head(rest);
    assert tail == Head(rest) + after;
    Associate(result[..i], Head(rest), after);
  }

  /** Two strings with the same end have the same shorter ends. */
  lemma Tails(a: seq<byte>, b: seq<byte>, i: nat, n: nat)
    requires i + n <= |a| == |b| && a[i..] == b[i..]
    ensures a[i + n..] == b[i + n..] == b[i..][n..] && a[..i + n] == a[..i] + b[i..][..n]
    ensures n > 0 ==> a[i] == b[i..][0]
  {
    assert a[i + n..] == a[i..][n..];
    assert a[..i + n] == a[..i] + a[i..][..n];
  }
}
