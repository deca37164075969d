/** Room Codes: unbiased generation (apps/api/src/infrastructure/security/crypto-code-generator.ts),
    uniqueness by retry (apps/api/src/room/room.service.ts) and the web client's sanitizer
    (apps/web/src/features/room/utils/room-code.ts). */
module RoomCode {
  import opened Common

  const ROOM_CODE_ALPHABET: string := "ABCDEFGHIJKLMNOPQRSTUVWXYZ0123456789"
  const ROOM_CODE_LENGTH: nat := 6
  const ROOM_CODE_MAX_ATTEMPTS: nat := 5
  /** floor(256 / 36) * 36 */
  const REJECTION_THRESHOLD: nat := 252
  /** ROOM_CODE_LENGTH * 2 */
  const SAMPLE_BATCH_SIZE: nat := 12

  /** Character k of the alphabet, letters first. */
  function Letter(k: nat): char
    requires k < 36
  {
    if k < 26 then ('A' as int + k) as char else ('0' as int + k - 26) as char
  }

  lemma AlphabetIsLetters(k: nat)
    requires k < 36
    ensures |ROOM_CODE_ALPHABET| == 36 && ROOM_CODE_ALPHABET[k] == Letter(k)
  {
  }

  predicate IsCodeChar(c: char) {
    'A' <= c <= 'Z' || '0' <= c <= '9'
  }

  /** ROOM_CODE_PATTERN. */
  predicate MatchesPattern(code: string) {
    |code| == ROOM_CODE_LENGTH && forall i :: 0 <= i < |code| ==> code[i] in ROOM_CODE_ALPHABET
  }

  lemma AlphabetIsTheCodeChars(c: char)
    ensures c in ROOM_CODE_ALPHABET <==> IsCodeChar(c)
  {
    if c in ROOM_CODE_ALPHABET {
      var k :| 0 <= k < |ROOM_CODE_ALPHABET| && ROOM_CODE_ALPHABET[k] == c;
      AlphabetIsLetters(k);
    }
    if IsCodeChar(c) {
      var k := if c <= '9' then c as int - '0' as int + 26 else c as int - 'A' as int;
      AlphabetIsLetters(k);
    }
  }

  lemma PatternIsSixCodeChars(code: string)
    ensures MatchesPattern(code) <==>
              |code| == ROOM_CODE_LENGTH && forall i :: 0 <= i < |code| ==> IsCodeChar(code[i])
  {
    hide IsCodeChar;
    forall i | 0 <= i < |code| ensures code[i] in ROOM_CODE_ALPHABET <==> IsCodeChar(code[i]) {
      AlphabetIsTheCodeChars(code[i]);
    }
  }

  /** The byte values that are kept. */
  function Accepted(bytes: seq<byte>): (r: seq<byte>)
    ensures |r| <= |bytes|
  {
    if bytes == [] then []
    else
      var last := bytes[|bytes| - 1];
      Accepted(bytes[..|bytes| - 1]) + if last as int < REJECTION_THRESHOLD then [last] else []
  }

  function Image(b: byte): char {
    AlphabetIsLetters(b as int % 36);
    ROOM_CODE_ALPHABET[b as int % 36]
  }

  function Images(bytes: seq<byte>): (s: string)
    ensures |s| == |bytes| && forall i :: 0 <= i < |s| ==> s[i] == Image(bytes[i])
  {
    seq(|bytes|, i requires 0 <= i < |bytes| => Image(bytes[i]))
  }

  /** The first n bytes of an endless random stream. */
  function Take(random: nat -> byte, n: nat): (s: seq<byte>)
    ensures |s| == n && forall i :: 0 <= i < n ==> s[i] == random(i)
  {
    seq(n, i requires 0 <= i < n => random(i))
  }

  lemma TakeOneMore(random: nat -> byte, n: nat)
    ensures Take(random, n + 1) == Take(random, n) + [random(n)]
    ensures Accepted(Take(random, n + 1))
            == Accepted(Take(random, n)) + if random(n) as int < REJECTION_THRESHOLD then [random(n)] else []
  {
  }

  lemma {:induction false} AcceptedOnlyGrows(random: nat -> byte, n: nat, m: nat)
    requires n <= m
    ensures Accepted(Take(random, n)) <= Accepted(Take(random, m))
  {
    hide Accepted, Take;
    if n < m {
      AcceptedOnlyGrows(random, n, m - 1);
      TakeOneMore(random, m - 1);
    }
  }

  lemma NothingTaken(random: nat -> byte)
    ensures Images(Accepted(Take(random, 0))) == ""
  {
  }

  lemma ImagesGrow(bytes: seq<byte>, b: byte)
    ensures Images(bytes + [b]) == Images(bytes) + [Image(b)]
  {
  }

  /** Whatever the batches, the code is the images of the first six acceptable bytes, and no batch is
      drawn beyond the one that holds the sixth. */
  method Generate(random: nat -> byte, ghost enough: nat) returns (code: string, drawn: nat)
    requires |Accepted(Take(random, enough))| >= ROOM_CODE_LENGTH
    ensures code == Images(Accepted(Take(random, enough))[..ROOM_CODE_LENGTH])
    ensures drawn % SAMPLE_BATCH_SIZE == 0 && |Accepted(Take(random, drawn))| >= ROOM_CODE_LENGTH
    ensures drawn > SAMPLE_BATCH_SIZE ==> |Accepted(Take(random, drawn - SAMPLE_BATCH_SIZE))| < ROOM_CODE_LENGTH
  {
    hide Accepted, Take, Batch, Image, Images;
    NothingTaken(random);
    code := "";
    var bytes := Batch(random, 0);
    drawn := SAMPLE_BATCH_SIZE;
    var cursor := 0;
    while |code| < ROOM_CODE_LENGTH
      invariant drawn % SAMPLE_BATCH_SIZE == 0 && drawn >= SAMPLE_BATCH_SIZE
      invariant bytes == Batch(random, drawn - SAMPLE_BATCH_SIZE)
      invariant cursor <= SAMPLE_BATCH_SIZE
      invariant |code| <= ROOM_CODE_LENGTH
      invariant code == Images(Accepted(Take(random, drawn - SAMPLE_BATCH_SIZE + cursor)))
      invariant drawn > SAMPLE_BATCH_SIZE ==> |Accepted(Take(random, drawn - SAMPLE_BATCH_SIZE))| < ROOM_CODE_LENGTH
      decreases enough - (drawn - SAMPLE_BATCH_SIZE + cursor)
    {
      ghost var at := drawn - SAMPLE_BATCH_SIZE + cursor;
      if at >= enough { AcceptedOnlyGrows(random, enough, at); }
      if cursor >= |bytes| {
        bytes := Batch(random, drawn);
        drawn := drawn + SAMPLE_BATCH_SIZE;
        cursor := 0;
      }
      var b := bytes[cursor];
      cursor := cursor + 1;
      TakeOneMore(random, at);
      if b as int < REJECTION_THRESHOLD {
        ImagesGrow(Accepted(Take(random, at)), b);
        code := code + [Image(b)];
      }
    }
    FirstSix(random, drawn - SAMPLE_BATCH_SIZE + cursor, enough, drawn);
  }

  lemma FirstSix(random: nat -> byte, at: nat, enough: nat, drawn: nat)
    requires |Accepted(Take(random, at))| == ROOM_CODE_LENGTH <= |Accepted(Take(random, enough))| && at <= drawn
    ensures Accepted(Take(random, at)) == Accepted(Take(random, enough))[..ROOM_CODE_LENGTH]
    ensures |Accepted(Take(random, drawn))| >= ROOM_CODE_LENGTH
  {
    hide Accepted, Take;
    AcceptedOnlyGrows(random, at, drawn);
    if at <= enough {
      AcceptedOnlyGrows(random, at, enough);
    } else {
      AcceptedOnlyGrows(random, enough, at);
    }
  }

  function Batch(random: nat -> byte, from: nat): (s: seq<byte>)
    ensures |s| == SAMPLE_BATCH_SIZE && forall i :: 0 <= i < SAMPLE_BATCH_SIZE ==> s[i] == random(from + i)
  {
    seq(SAMPLE_BATCH_SIZE, i requires 0 <= i < SAMPLE_BATCH_SIZE => random(from + i))
  }

  /** The acceptable byte values that give character k of the alphabet. */
  function BytesFor(k: nat): set<byte>
    requires k < 36
  {
    set b: byte | Gives(b, k)
  }

  predicate Gives(b: byte, k: nat) {
    b as int < REJECTION_THRESHOLD && b as int % 36 == k
  }

  lemma SevenBytesFor(k: nat)
    requires k < 36
    ensures |BytesFor(k)| == 7
  {
    var seven := {k as byte, (k + 36) as byte, (k + 72) as byte, (k + 108) as byte, (k + 144) as byte,
                  (k + 180) as byte, (k + 216) as byte};
    forall b: byte ensures b in BytesFor(k) <==> b in seven {
      var q := b as int / 36;
      assert b as int == 36 * q + b as int % 36;
    }
    assert BytesFor(k) == seven;
    assert |seven| == 7;
  }

  /** The draws of acceptable bytes that spell a code. */
  ghost predicate Spells(draw: seq<byte>, code: string) {
    && |draw| == |code|
    && forall i :: 0 <= i < |draw| ==> draw[i] as int < REJECTION_THRESHOLD && Image(draw[i]) == code[i]
  }

  function Power7(n: nat): nat {
    if n == 0 then 1 else 7 * Power7(n - 1)
  }

  function IndexOf(c: char): (k: nat)
    requires IsCodeChar(c)
    ensures k < 36 && Letter(k) == c
  {
    if c <= '9' then c as int - '0' as int + 26 else c as int - 'A' as int
  }

  function Extended(draws: set<seq<byte>>, bytes: set<byte>): set<seq<byte>> {
    set d, b | d in draws && b in bytes :: d + [b]
  }

  lemma InExtended(draws: set<seq<byte>>, bytes: set<byte>, draw: seq<byte>)
    ensures draw in Extended(draws, bytes) <==>
              draw != [] && draw[..|draw| - 1] in draws && draw[|draw| - 1] in bytes
  {
    if draw in Extended(draws, bytes) {
      var d, b :| d in draws && b in bytes && draw == d + [b];
      assert draw[..|draw| - 1] == d;
    }
    if draw != [] {
      assert draw == draw[..|draw| - 1] + [draw[|draw| - 1]];
    }
  }

  lemma ExtendedByNone(draws: set<seq<byte>>)
    ensures Extended(draws, {}) == {}
  {
  }

  lemma {:induction false} ExtendedSize(draws: set<seq<byte>>, bytes: set<byte>)
    ensures |Extended(draws, bytes)| == |draws| * |bytes|
  {
    hide Extended;
    if bytes == {} {
      ExtendedByNone(draws);
    } else {
      var b :| b in bytes;
      var others := bytes - {b};
      ExtendedSize(draws, others);
      ExtendedByOne(draws, b);
      ExtendedSplits(draws, bytes, b);
      DisjointSizes(Extended(draws, {b}), Extended(draws, others));
      OneMoreTime(|draws|, |bytes|);
    }
  }

  lemma DisjointSizes<T>(a: set<T>, b: set<T>)
    requires a !! b
    ensures |a + b| == |a| + |b|
  {
  }

  lemma OneMoreTime(a: nat, b: nat)
    requires b > 0
    ensures a * b == a * (b - 1) + a
  {
  }

  lemma ExtendedSplits(draws: set<seq<byte>>, bytes: set<byte>, b: byte)
    requires b in bytes
    ensures var one, rest := Extended(draws, {b}), Extended(draws, bytes - {b});
            Extended(draws, bytes) == one + rest && one !! rest
  {
    hide Extended;
    forall d ensures d in Extended(draws, bytes) <==> d in Extended(draws, {b}) || d in Extended(draws, bytes - {b})
             ensures !(d in Extended(draws, {b}) && d in Extended(draws, bytes - {b}))
    {
      InExtended(draws, bytes, d);
      InExtended(draws, {b}, d);
      InExtended(draws, bytes - {b}, d);
    }
  }

  lemma ExtendedByOne(draws: set<seq<byte>>, b: byte)
    ensures |Extended(draws, {b})| == |draws|
  {
    var one := Extended(draws, {b});
    forall d | d in draws ensures d + [b] in one && (d + [b])[..|d + [b]| - 1] == d {}
    forall e | e in one ensures |e| > 0 && e[..|e| - 1] in draws && e[..|e| - 1] + [b] == e {}
    BijectionKeepsSize(draws, one, d => d + [b], e => if |e| > 0 then e[..|e| - 1] else e);
  }

  function Draws(code: string): set<seq<byte>>
    requires forall i :: 0 <= i < |code| ==> IsCodeChar(code[i])
  {
    if code == "" then {[]}
    else Extended(Draws(code[..|code| - 1]), BytesFor(IndexOf(code[|code| - 1])))
  }

  lemma GivesExactlyItsLetter(b: byte, c: char)
    requires IsCodeChar(c)
    ensures b in BytesFor(IndexOf(c)) <==> b as int < REJECTION_THRESHOLD && Image(b) == c
  {
    AlphabetIsLetters(b as int % 36);
  }

  lemma SpellsSplits(draw: seq<byte>, code: string)
    requires draw != [] && code != ""
    ensures var n, m := |draw| - 1, |code| - 1;
            Spells(draw, code) <==>
              Spells(draw[..n], code[..m]) && draw[n] as int < REJECTION_THRESHOLD && Image(draw[n]) == code[m]
  {
  }

  lemma {:induction false} DrawsAreTheSpellings(code: string, draw: seq<byte>)
    requires forall i :: 0 <= i < |code| ==> IsCodeChar(code[i])
    ensures draw in Draws(code) <==> Spells(draw, code)
  {
    if code != "" {
      var n := |code| - 1;
      InExtended(Draws(code[..n]), BytesFor(IndexOf(code[n])), draw);
      if draw != [] {
        DrawsAreTheSpellings(code[..n], draw[..|draw| - 1]);
        GivesExactlyItsLetter(draw[|draw| - 1], code[n]);
        SpellsSplits(draw, code);
      }
      hide Extended, BytesFor, Image;
    }
  }

  /** No code is favoured: of the draws of six acceptable bytes, exactly 7^6 spell each code. */
  lemma {:induction false} EveryCodeHasEquallyManyDraws(code: string)
    requires forall i :: 0 <= i < |code| ==> IsCodeChar(code[i])
    ensures |Draws(code)| == Power7(|code|)
    ensures forall draw :: draw in Draws(code) <==> Spells(draw, code)
  {
    if code != "" {
      var k := IndexOf(code[|code| - 1]);
      EveryCodeHasEquallyManyDraws(code[..|code| - 1]);
      ExtendedSize(Draws(code[..|code| - 1]), BytesFor(k));
      SevenBytesFor(k);
    }
    forall draw ensures draw in Draws(code) <==> Spells(draw, code) {
      DrawsAreTheSpellings(code, draw);
    }
  }

  predicate IsAlphanumeric(c: char) {
    'a' <= c <= 'z' || 'A' <= c <= 'Z' || '0' <= c <= '9'
  }

  function Upper(c: char): char {
    if 'a' <= c <= 'z' then (c as int - 32) as char else c
  }

  /** Non-alphanumerics dropped, the rest in upper case. */
  function Cleaned(s: string): string {
    if s == "" then ""
    else
      var last := s[|s| - 1];
      Cleaned(s[..|s| - 1]) + if IsAlphanumeric(last) then [Upper(last)] else ""
  }

  function LastSix(s: string): string {
    if |s| <= ROOM_CODE_LENGTH then s else s[|s| - ROOM_CODE_LENGTH..]
  }

  /** What a caller may pass: the sanitizer tolerates anything. */
  datatype Raw = Text(text: string) | NotText

  function SanitizeRoomCode(raw: Raw): string {
    match raw
    case NotText => ""
    case Text(text) => LastSix(Cleaned(text))
  }

  lemma {:induction false} CleanedIsCodeChars(s: string)
    ensures forall i :: 0 <= i < |Cleaned(s)| ==> IsCodeChar(Cleaned(s)[i])
  {
    if s != "" { CleanedIsCodeChars(s[..|s| - 1]); }
  }

  lemma {:induction false} CodeCharsAreClean(s: string)
    requires forall i :: 0 <= i < |s| ==> IsCodeChar(s[i])
    ensures Cleaned(s) == s
  {
    if s != "" { CodeCharsAreClean(s[..|s| - 1]); }
  }

  lemma {:induction false} CleanedDistributes(a: string, b: string)
    ensures Cleaned(a + b) == Cleaned(a) + Cleaned(b)
  {
    if b == "" {
      assert a + b == a;
    } else {
      CleanedDistributes(a, b[..|b| - 1]);
      assert (a + b)[..|a + b| - 1] == a + b[..|b| - 1];
    }
  }

  /** A code survives anything in front of it, any case, and any punctuation inside and after it. */
  lemma SanitizerFindsTheCode(before: string, spelled: string, code: string)
    requires Cleaned(spelled) == code && |code| == ROOM_CODE_LENGTH
    ensures SanitizeRoomCode(Text(before + spelled)) == code
  {
    CleanedDistributes(before, spelled);
  }

  function UpperCase(): string { "ABCDEFGHIJKLMNOPQRSTUVWXYZ" }

  function LowerCase(): string { "abcdefghijklmnopqrstuvwxyz" }

  function Digits(): string { "0123456789" }

  ghost predicate IsLetterOrDigit(c: char) {
    c in UpperCase() || c in LowerCase() || c in Digits()
  }

  /** c is the code character d, or its lower case. */
  ghost predicate SameLetter(c: char, d: char) {
    || (c == d && (d in UpperCase() || d in Digits()))
    || exists k :: 0 <= k < |LowerCase()| == |UpperCase()| && LowerCase()[k] == c && UpperCase()[k] == d
  }

  /** The letters and digits of the text are the code's characters in order, in any case. */
  ghost predicate SpellsOut(text: string, code: string) {
    if text == "" then code == ""
    else
      var n := |text| - 1;
      if IsLetterOrDigit(text[n])
      then code != "" && SameLetter(text[n], code[|code| - 1]) && SpellsOut(text[..n], code[..|code| - 1])
      else SpellsOut(text[..n], code)
  }

  /** The letters and digits in order, from `first` on. */
  ghost predicate Consecutive(table: string, first: char) {
    forall k :: 0 <= k < |table| ==> table[k] as int == first as int + k
  }

  lemma TablesAreConsecutive()
    ensures |UpperCase()| == |LowerCase()| == 26 && |Digits()| == 10
    ensures Consecutive(UpperCase(), 'A') && Consecutive(LowerCase(), 'a') && Consecutive(Digits(), '0')
  {
  }

  lemma InConsecutive(table: string, first: char, c: char)
    requires Consecutive(table, first)
    ensures c in table <==> first as int <= c as int < first as int + |table|
  {
    if first as int <= c as int < first as int + |table| { assert table[c as int - first as int] == c; }
  }

  lemma LettersAreCleaned(c: char, d: char)
    ensures IsAlphanumeric(c) <==> IsLetterOrDigit(c)
    ensures SameLetter(c, d) ==> IsAlphanumeric(c) && Upper(c) == d
  {
    hide UpperCase, LowerCase, Digits;
    TablesAreConsecutive();
    InConsecutive(UpperCase(), 'A', c);
    InConsecutive(LowerCase(), 'a', c);
    InConsecutive(Digits(), '0', c);
    InConsecutive(UpperCase(), 'A', d);
    InConsecutive(Digits(), '0', d);
  }

  lemma {:induction false} SpelledOutIsCleaned(text: string, code: string)
    requires SpellsOut(text, code)
    ensures Cleaned(text) == code
  {
    hide IsAlphanumeric, Upper, SameLetter, IsLetterOrDigit;
    if text != "" {
      var n := |text| - 1;
      LettersAreCleaned(text[n], if code == "" then 'A' else code[|code| - 1]);
      if IsLetterOrDigit(text[n]) {
        SpelledOutIsCleaned(text[..n], code[..|code| - 1]);
        assert code == code[..|code| - 1] + [code[|code| - 1]];
      } else {
        SpelledOutIsCleaned(text[..n], code);
      }
    }
  }

  /** Whoever spells a code out, in any case and with anything but letters and digits between, behind
      any text, has it recovered. */
  lemma SpelledCodesAreRecovered(before: string, spelled: string, code: string)
    requires SpellsOut(spelled, code) && |code| == ROOM_CODE_LENGTH
    ensures SanitizeRoomCode(Text(before + spelled)) == code
  {
    SpelledOutIsCleaned(spelled, code);
    SanitizerFindsTheCode(before, spelled, code);
  }

  /** Sanitizing twice is sanitizing once; the result can be submitted exactly when it is as long as a
      code, and then the server's pattern accepts it; every valid code stays as it is. */
  lemma SanitizedIsStableAndValid(raw: Raw)
    ensures var s := SanitizeRoomCode(raw);
            && SanitizeRoomCode(Text(s)) == s
            && |s| <= ROOM_CODE_LENGTH
            && (|s| == ROOM_CODE_LENGTH <==> MatchesPattern(s))
    ensures raw.Text? && MatchesPattern(raw.text) ==> SanitizeRoomCode(raw) == raw.text
  {
    hide MatchesPattern;
    PatternIsSixCodeChars(SanitizeRoomCode(raw));
    if raw.Text? {
      PatternIsSixCodeChars(raw.text);
      CleanedIsCodeChars(raw.text);
      CodeCharsAreClean(LastSix(Cleaned(raw.text)));
      if MatchesPattern(raw.text) { CodeCharsAreClean(raw.text); }
    }
  }

  /** A generated code, pasted at the end of any text, is what the server will be asked for. */
  lemma GeneratedCodesAreRecovered(random: nat -> byte, enough: nat, before: string)
    requires |Accepted(Take(random, enough))| >= ROOM_CODE_LENGTH
    ensures var code := Images(Accepted(Take(random, enough))[..ROOM_CODE_LENGTH]);
            MatchesPattern(code) && SanitizeRoomCode(Text(before + code)) == code
  {
    var code := Images(Accepted(Take(random, enough))[..ROOM_CODE_LENGTH]);
    forall i | 0 <= i < |code| ensures IsCodeChar(code[i]) {
      AlphabetIsLetters(Accepted(Take(random, enough))[i] as int % 36);
    }
    PatternIsSixCodeChars(code);
    CodeCharsAreClean(code);
    SanitizerFindsTheCode(before, code, code);
  }

  datatype CreateError = Exhausted(attempts: nat) | StoreFailed

  /** What the database would answer to inserting each code drawn. */
  datatype Attempt = Attempt(code: string, failed: bool)

  /** The first of five codes that is free is taken; a failure other than a collision ends the
      search; five collisions exhaust it. */
  ghost function Outcome(taken: set<string>, attempts: seq<Attempt>, k: nat): Result<string, CreateError>
    requires |attempts| == ROOM_CODE_MAX_ATTEMPTS && k <= ROOM_CODE_MAX_ATTEMPTS
    decreases ROOM_CODE_MAX_ATTEMPTS - k
  {
    if k == ROOM_CODE_MAX_ATTEMPTS then Failure(Exhausted(ROOM_CODE_MAX_ATTEMPTS))
    else if attempts[k].failed then Failure(StoreFailed)
    else if attempts[k].code in taken then Outcome(taken, attempts, k + 1)
    else Success(attempts[k].code)
  }

  class RoomCodes {
    var taken: set<string>

    constructor ()
      ensures taken == {}
    {
      taken := {};
    }

    method CreateRoomWithUniqueCode(attempts: seq<Attempt>) returns (result: Result<string, CreateError>)
      requires |attempts| == ROOM_CODE_MAX_ATTEMPTS
      modifies this
      ensures result == Outcome(old(taken), attempts, 0)
      ensures taken == old(taken) + if result.Success? then {result.value} else {}
      ensures result.Success? ==> result.value !in old(taken)
    {
      for attempt := 0 to ROOM_CODE_MAX_ATTEMPTS
        invariant taken == old(taken)
        invariant Outcome(taken, attempts, 0) == Outcome(taken, attempts, attempt)
      {
        if attempts[attempt].failed {
          return Failure(StoreFailed);
        }
        if attempts[attempt].code !in taken {
          taken := taken + {attempts[attempt].code};
          return Success(attempts[attempt].code);
        }
      }
      return Failure(Exhausted(ROOM_CODE_MAX_ATTEMPTS));
    }
  }

  /** Creation is exhausted exactly when all five codes drawn collide. */
  lemma {:induction false} ExhaustedExactlyWhenAllCollide(taken: set<string>, attempts: seq<Attempt>, k: nat)
    requires |attempts| == ROOM_CODE_MAX_ATTEMPTS && k <= ROOM_CODE_MAX_ATTEMPTS
    ensures Outcome(taken, attempts, k) == Failure(Exhausted(ROOM_CODE_MAX_ATTEMPTS))
       <==> forall i :: k <= i < ROOM_CODE_MAX_ATTEMPTS ==> !attempts[i].failed && attempts[i].code in taken
    decreases ROOM_CODE_MAX_ATTEMPTS - k
  {
    if k < ROOM_CODE_MAX_ATTEMPTS { ExhaustedExactlyWhenAllCollide(taken, attempts, k + 1); }
  }

  /** Attempt i collided. */
  ghost predicate Collides(taken: set<string>, attempt: Attempt) {
    !attempt.failed && attempt.code in taken
  }

  /** The first attempt that does not collide decides: its code is taken if the insert worked, and the
      failure is passed on if it did not. */
  lemma {:induction false} FirstFreeCodeWins(taken: set<string>, attempts: seq<Attempt>, k: nat, first: nat)
    requires |attempts| == ROOM_CODE_MAX_ATTEMPTS && k <= first < ROOM_CODE_MAX_ATTEMPTS
    requires (forall i :: k <= i < first ==> Collides(taken, attempts[i])) && !Collides(taken, attempts[first])
    ensures Outcome(taken, attempts, k)
         == if attempts[first].failed then Failure(StoreFailed) else Success(attempts[first].code)
    decreases first - k
  {
    if k < first {
      assert Collides(taken, attempts[k]);
      FirstFreeCodeWins(taken, attempts, k + 1, first);
    }
  }
}
