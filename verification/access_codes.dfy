/**
 One-time codes as people type them: what `normalize_code` forgives, what it
 refuses, and which code it recovers (backend/core/accounts.py).

 Characters are ASCII; Python's upper-casing of other alphabets is not modelled.
 */
module AccessCodes {
  import opened Wrappers

  const CODE_ALPHABET := "ABCDEFGHJKLMNPQRSTUVWXYZ23456789"
  const CODE_LENGTH := 12
  const INVITE_PREFIX := "AEGIS"
  const RESET_PREFIX := "RESET"

  predicate IsSymbol(c: char)
  {
    ('A' <= c <= 'Z' && c != 'I' && c != 'O') || '2' <= c <= '9'
  }

  /** Where the alphabet has a symbol. */
  function PlaceOf(c: char): nat
    requires IsSymbol(c)
  {
    if c <= '9' then 24 + (c - '2') as int
    else (c - 'A') as int - (if c > 'O' then 2 else if c > 'I' then 1 else 0)
  }

  lemma SymbolIsInPlace(c: char)
    requires IsSymbol(c)
    ensures PlaceOf(c) < |CODE_ALPHABET| && CODE_ALPHABET[PlaceOf(c)] == c
  {
  }

  lemma SymbolsAreTheAlphabet(c: char)
    ensures IsSymbol(c) <==> c in CODE_ALPHABET
  {
    if IsSymbol(c) {
      SymbolIsInPlace(c);
    }
  }

  function Upper(c: char): char
  {
    if 'a' <= c <= 'z' then c - 'a' + 'A' else c
  }

  predicate IsKept(c: char)
  {
    'A' <= c <= 'Z' || '0' <= c <= '9'
  }

  /** Upper-cased, with everything but letters and digits removed. */
  function Compact(raw: string): string
  {
    if raw == [] then []
    else (if IsKept(Upper(raw[0])) then [Upper(raw[0])] else []) + Compact(raw[1..])
  }

  predicate IsBody(body: string)
  {
    |body| == CODE_LENGTH && forall i :: 0 <= i < |body| ==> IsSymbol(body[i])
  }

  function Grouped(body: string): string
    requires |body| == CODE_LENGTH
  {
    body[..4] + "-" + body[4..8] + "-" + body[8..]
  }

  /** The form a code is issued in. */
  function Code(prefix: string, body: string): string
    requires |body| == CODE_LENGTH
  {
    prefix + "-" + Grouped(body)
  }

  function NormalizeCode(raw: string, prefix: string): Option<string>
  {
    var compact := Compact(raw);
    var body := if prefix <= compact then compact[|prefix|..] else compact;
    if IsBody(body) then Some(Code(prefix, body)) else None
  }

  // --- manglings -----------------------------------------------------------

  /** One thing done to a code on its way from the console to the form. */
  datatype Mangling =
    | AddSeparator(at: nat, separator: char)
    | DropSeparator(at: nat)
    | LowerCase(at: nat)

  predicate IsSeparator(c: char)
  {
    !IsKept(Upper(c))
  }

  function Mangle(text: string, m: Mangling): string
  {
    match m
    case AddSeparator(at, c) =>
      if at <= |text| && IsSeparator(c) then text[..at] + [c] + text[at..] else text
    case DropSeparator(at) =>
      if at < |text| && IsSeparator(text[at]) then text[..at] + text[at + 1..] else text
    case LowerCase(at) =>
      if at < |text| && 'A' <= text[at] <= 'Z' then text[at := text[at] - 'A' + 'a'] else text
  }

  function MangleAll(text: string, ms: seq<Mangling>): string
    decreases |ms|
  {
    if ms == [] then text else MangleAll(Mangle(text, ms[0]), ms[1..])
  }

  lemma CompactCons(c: char, rest: string)
    ensures Compact([c] + rest) == Compact([c]) + Compact(rest)
    ensures Compact([c]) == if IsKept(Upper(c)) then [Upper(c)] else []
  {
    assert ([c] + rest)[1..] == rest && [c][1..] == [];
  }

  lemma {:induction false} CompactConcat(a: string, b: string)
    ensures Compact(a + b) == Compact(a) + Compact(b)
  {
    if a == [] {
      assert a + b == b;
    } else {
      var rest := a[1..];
      CompactConcat(rest, b);
      assert a + b == [a[0]] + (rest + b) && a == [a[0]] + rest;
      CompactCons(a[0], rest + b);
      CompactCons(a[0], rest);
    }
  }

  lemma CompactAround(before: string, c: char, after: string)
    ensures Compact(before + [c] + after) == Compact(before) + (if IsKept(Upper(c)) then [Upper(c)] else []) + Compact(after)
  {
    assert before + [c] + after == before + ([c] + after);
    CompactConcat(before, [c] + after);
    CompactCons(c, after);
  }

  lemma SeparatorVanishes(before: string, c: char, after: string)
    requires IsSeparator(c)
    ensures Compact(before + [c] + after) == Compact(before + after)
  {
    CompactAround(before, c, after);
    CompactConcat(before, after);
  }

  lemma CaseVanishes(before: string, c: char, d: char, after: string)
    requires Upper(c) == Upper(d)
    ensures Compact(before + [c] + after) == Compact(before + [d] + after)
  {
    CompactAround(before, c, after);
    CompactAround(before, d, after);
  }

  lemma MangleKeepsCompact(text: string, m: Mangling)
    ensures Compact(Mangle(text, m)) == Compact(text)
  {
    match m
    case AddSeparator(at, c) =>
      if at <= |text| && IsSeparator(c) {
        SeparatorVanishes(text[..at], c, text[at..]);
        assert text == text[..at] + text[at..];
      }
    case DropSeparator(at) =>
      if at < |text| && IsSeparator(text[at]) {
        SeparatorVanishes(text[..at], text[at], text[at + 1..]);
        assert text == text[..at] + [text[at]] + text[at + 1..];
      }
    case LowerCase(at) =>
      if at < |text| && 'A' <= text[at] <= 'Z' {
        var c := text[at] - 'A' + 'a';
        CaseVanishes(text[..at], text[at], c, text[at + 1..]);
        assert text == text[..at] + [text[at]] + text[at + 1..];
        assert text[at := c] == text[..at] + [c] + text[at + 1..];
      }
  }

  lemma {:induction false} MangleAllKeepsCompact(text: string, ms: seq<Mangling>)
    ensures Compact(MangleAll(text, ms)) == Compact(text)
    decreases |ms|
  {
    if ms != [] {
      MangleKeepsCompact(text, ms[0]);
      MangleAllKeepsCompact(Mangle(text, ms[0]), ms[1..]);
    }
  }

  lemma {:induction false} CompactKeeps(text: string)
    requires forall i :: 0 <= i < |text| ==> IsKept(text[i])
    ensures Compact(text) == text
  {
    if text != [] {
      assert IsKept(text[0]);
      CompactKeeps(text[1..]);
    }
  }

  lemma CompactGrouped(body: string)
    requires IsBody(body)
    ensures Compact(Grouped(body)) == body
  {
    var first := body[..4] + "-" + body[4..8] + "-";
    CompactConcat(first, body[8..]);
    CompactConcat(body[..4] + "-" + body[4..8], "-");
    CompactConcat(body[..4] + "-", body[4..8]);
    CompactConcat(body[..4], "-");
    CompactCons('-', []);
    CompactKeeps(body[..4]);
    CompactKeeps(body[4..8]);
    CompactKeeps(body[8..]);
  }

  lemma CompactCode(prefix: string, body: string)
    requires IsBody(body) && forall i :: 0 <= i < |prefix| ==> IsKept(prefix[i])
    ensures Compact(Code(prefix, body)) == prefix + body
  {
    assert Code(prefix, body) == prefix + ['-'] + Grouped(body);
    SeparatorVanishes(prefix, '-', Grouped(body));
    CompactConcat(prefix, Grouped(body));
    CompactKeeps(prefix);
    CompactGrouped(body);
  }

  // --- what normalising recovers -------------------------------------------

  /** Every mangling of an issued code is recovered, whatever the prefix. */
  lemma RecoversEveryMangling(prefix: string, body: string, ms: seq<Mangling>)
    requires IsBody(body) && forall i :: 0 <= i < |prefix| ==> IsKept(prefix[i])
    ensures NormalizeCode(MangleAll(Code(prefix, body), ms), prefix) == Some(Code(prefix, body))
  {
    MangleAllKeepsCompact(Code(prefix, body), ms);
    CompactCode(prefix, body);
    assert (prefix + body)[|prefix|..] == body;
  }

  /** With the prefix dropped, exactly when the body does not itself begin with it. */
  lemma RecoversDroppedPrefix(prefix: string, body: string, ms: seq<Mangling>)
    requires IsBody(body) && prefix != []
    ensures NormalizeCode(MangleAll(Grouped(body), ms), prefix) ==
            if prefix <= body then None else Some(Code(prefix, body))
  {
    MangleAllKeepsCompact(Grouped(body), ms);
    CompactGrouped(body);
  }

  /** No invitation body begins with AEGIS: the alphabet has no I. */
  lemma InvitePrefixMayAlwaysBeDropped(body: string, ms: seq<Mangling>)
    requires IsBody(body)
    ensures NormalizeCode(MangleAll(Grouped(body), ms), INVITE_PREFIX) == Some(Code(INVITE_PREFIX, body))
  {
    RecoversDroppedPrefix(INVITE_PREFIX, body, ms);
    assert IsSymbol(body[3]) && INVITE_PREFIX[3] == 'I';
  }

  lemma ResetPrefixMayBeDroppedUnlessRepeated(body: string, ms: seq<Mangling>)
    requires IsBody(body)
    ensures NormalizeCode(MangleAll(Grouped(body), ms), RESET_PREFIX) == Some(Code(RESET_PREFIX, body))
            <==> !(RESET_PREFIX <= body)
  {
    RecoversDroppedPrefix(RESET_PREFIX, body, ms);
  }

  /** A reset code whose body repeats the prefix exists, so the exception is a real one. */
  lemma ResetExceptionExists()
    ensures var body := RESET_PREFIX + "AAAAAAA";
            IsBody(body) && NormalizeCode(Grouped(body), RESET_PREFIX) == None
  {
    RecoversDroppedPrefix(RESET_PREFIX, RESET_PREFIX + "AAAAAAA", []);
  }

  /** Whatever was typed, what comes back is a well-formed code and normalises to itself. */
  lemma NormalizeIsIdempotent(raw: string, prefix: string)
    requires forall i :: 0 <= i < |prefix| ==> IsKept(prefix[i])
    ensures var code := NormalizeCode(raw, prefix);
            code.Some? ==>
              && NormalizeCode(code.value, prefix) == code
              && exists body :: IsBody(body) && code.value == Code(prefix, body)
  {
    var compact := Compact(raw);
    var body := if prefix <= compact then compact[|prefix|..] else compact;
    if IsBody(body) {
      RecoversEveryMangling(prefix, body, []);
    }
  }

  /** Two codes are never confused: manglings of one normalise to the other only when they are the same. */
  lemma ManglingsNeverCollide(prefix: string, body: string, other: string, ms: seq<Mangling>)
    requires IsBody(body) && IsBody(other) && forall i :: 0 <= i < |prefix| ==> IsKept(prefix[i])
    ensures NormalizeCode(MangleAll(Code(prefix, body), ms), prefix) == Some(Code(prefix, other)) ==> body == other
  {
    RecoversEveryMangling(prefix, body, ms);
    if Code(prefix, body) == Code(prefix, other) {
      CompactCode(prefix, body);
      CompactCode(prefix, other);
      assert (prefix + body)[|prefix|..] == body && (prefix + other)[|prefix|..] == other;
    }
  }

  /** An invitation code is not a reset code, however it is typed, nor the reverse. */
  lemma CodesDoNotCross(body: string, ms: seq<Mangling>)
    requires IsBody(body)
    ensures NormalizeCode(MangleAll(Code(INVITE_PREFIX, body), ms), RESET_PREFIX) == None
    ensures NormalizeCode(MangleAll(Code(RESET_PREFIX, body), ms), INVITE_PREFIX) == None
  {
    MangleAllKeepsCompact(Code(INVITE_PREFIX, body), ms);
    MangleAllKeepsCompact(Code(RESET_PREFIX, body), ms);
    CompactCode(INVITE_PREFIX, body);
    CompactCode(RESET_PREFIX, body);
    assert (INVITE_PREFIX + body)[0] == 'A' && (RESET_PREFIX + body)[0] == 'R';
  }

  lemma {:induction false} TypedStays(raw: string, typed: char)
    requires typed in raw && IsKept(Upper(typed))
    ensures Upper(typed) in Compact(raw)
  {
    assert raw == [raw[0]] + raw[1..];
    if typed != raw[0] {
      TypedStays(raw[1..], typed);
    }
  }

  /** The four lookalikes left out of the alphabet are not corrected: wherever one is typed that the prefix does not have, there is no code. */
  lemma LookalikesAreRefused(raw: string, prefix: string, typed: char)
    requires typed in raw && typed in "01IOio" && Upper(typed) !in prefix
    ensures NormalizeCode(raw, prefix) == None
  {
    var compact := Compact(raw);
    assert Upper(typed) in "01IO" by {
      assert "01IO"[0] == '0' && "01IO"[1] == '1' && "01IO"[2] == 'I' && "01IO"[3] == 'O';
    }
    TypedStays(raw, typed);
    if prefix <= compact {
      assert compact == prefix + compact[|prefix|..];
    }
  }
}
