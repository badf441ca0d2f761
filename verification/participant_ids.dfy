/** Participant identifiers: the generator, the format validator and the
    tournament-segment extractor. The two inputs the generator draws from the
    host, `Math.random()` and `Date.now()`, are parameters: `fraction` is the
    text after "0." in `Math.random().toString(36)` (lower-case base-36
    digits, possibly fewer than four, empty when the draw is 0) and `now` is
    the epoch-millisecond clock. */
module ParticipantIds {
  import opened Wrappers
  import opened Text
  import opened Strings
  import opened Seqs

  const Prefix: string := "BGMIP"

  predicate IsBase36Digit(c: char) {
    IsDigit(c) || IsLower(c)
  }

  predicate IsBase36(s: string) {
    forall i :: 0 <= i < |s| ==> IsBase36Digit(s[i])
  }

  /** The tournament part: the last four characters of the id, or the whole
      id when it has at most four. */
  function TournamentSuffix(tournamentId: string): (r: string)
    ensures |r| <= 4 && (|tournamentId| <= 4 ==> r == tournamentId)
    ensures tournamentId == tournamentId[..|tournamentId| - |r|] + r
    ensures |tournamentId| >= 4 ==> |r| == 4
  {
    TakeLast(tournamentId, 4)
  }

  /** The random part: the first (up to) four base-36 digits, upper-cased. */
  function RandomPart(fraction: string): (r: string)
    ensures |r| == if |fraction| < 4 then |fraction| else 4
    ensures forall i :: 0 <= i < |r| ==> r[i] == UpperChar(fraction[i])
    ensures IsBase36(fraction) ==> AllAlnum(r) && '-' !in r
    ensures IsBase36(fraction) ==> forall i :: 0 <= i < |r| ==> !IsLower(r[i])
  {
    Upper(if |fraction| <= 4 then fraction else fraction[..4])
  }

  /** The time part: the last (up to) four decimal digits of the clock. */
  function TimePart(now: nat): (r: string)
    ensures AllDigits(r) && '-' !in r && |r| <= 4
    ensures |r| == 4 <==> now >= 1000
    ensures |r| == if |Decimal(now)| < 4 then |Decimal(now)| else 4
    ensures Decimal(now) == Decimal(now)[..|Decimal(now)| - |r|] + r
  {
    DecimalHasFourDigits(now);
    TakeLast(Decimal(now), 4)
  }

  /** Four segments glued with hyphens. */
  function Token(p: string, a: string, b: string, c: string): string {
    p + "-" + a + "-" + b + "-" + c
  }

  /** `generateParticipantId`: the prefix, the tournament part, the random
      part and the time part, read back as the hyphen-separated pieces of the
      id (the tournament part may itself hold hyphens). */
  function Generate(tournamentId: string, fraction: string, now: nat): (r: string)
    ensures IsBase36(fraction) ==>
              Split(r, '-') == [Prefix] + Split(TournamentSuffix(tournamentId), '-') + [RandomPart(fraction), TimePart(now)]
    ensures |r| <= 5 + 1 + 4 + 1 + 4 + 1 + 4
  {
    var rand, time := RandomPart(fraction), TimePart(now);
    if IsBase36(fraction) then
      PrefixHasNoHyphen(Prefix);
      SplitToken(Prefix, TournamentSuffix(tournamentId), rand, time);
      Token(Prefix, TournamentSuffix(tournamentId), rand, time)
    else
      Token(Prefix, TournamentSuffix(tournamentId), rand, time)
  }

  /** The per-segment conditions of the token pattern
      `^BGMIP-[A-Z0-9]{1,8}-[A-Z0-9]{4}-[0-9]{4}$` under the `i` flag. */
  predicate ValidSegments(p: string, a: string, b: string, c: string) {
    && EqualsIgnoreCase(p, Prefix)
    && 1 <= |a| <= 8 && AllAlnum(a)
    && |b| == 4 && AllAlnum(b)
    && |c| == 4 && AllDigits(c)
  }

  /** The token pattern, written as the decomposition it describes. */
  ghost predicate MatchesPattern(token: string) {
    exists p, a, b, c :: token == Token(p, a, b, c) && ValidSegments(p, a, b, c)
  }

  /** `validateParticipantId`: accepts exactly the strings the token pattern
      describes. */
  function Validate(token: string): (r: bool)
    ensures r <==> MatchesPattern(token)
  {
    ValidateIsPattern(token);
    ValidShape(token)
  }

  /** The validator's test by position: only the second segment has a
      variable length, so the total length fixes where every hyphen must be. */
  predicate ValidShape(token: string) {
    var n := |token|;
    17 <= n <= 24
    && var k := n - 16;
       token[5] == '-' && token[6 + k] == '-' && token[11 + k] == '-'
       && ValidSegments(token[..5], token[6..6 + k], token[7 + k..11 + k], token[12 + k..])
  }

  /** Where the segments and hyphens of a token with a five-character prefix
      and a four-character third segment sit. */
  lemma TokenLayout(p: string, a: string, b: string, c: string)
    requires |p| == 5 && |b| == 4
    ensures var t, k := Token(p, a, b, c), |a|;
            && |t| == 16 + k + |c| - 4
            && t[..5] == p && t[5] == '-'
            && t[6..6 + k] == a && t[6 + k] == '-'
            && t[7 + k..11 + k] == b && t[11 + k] == '-'
            && t[12 + k..] == c
  {
  }

  /** A string with hyphens at the three fixed positions is the token of its segments. */
  lemma TokenOfSlices(token: string, k: nat)
    requires 12 + k <= |token|
    requires token[5] == '-' && token[6 + k] == '-' && token[11 + k] == '-'
    ensures token == Token(token[..5], token[6..6 + k], token[7 + k..11 + k], token[12 + k..])
  {
    var t := Token(token[..5], token[6..6 + k], token[7 + k..11 + k], token[12 + k..]);
    assert |t| == |token|;
    forall i | 0 <= i < |t|
      ensures t[i] == token[i]
    {
    }
  }

  /** The positional test accepts exactly the strings the pattern describes. */
  lemma ValidateIsPattern(token: string)
    ensures ValidShape(token) <==> MatchesPattern(token)
  {
    if ValidShape(token) {
      ValidatedMatches(token);
    }
    if MatchesPattern(token) {
      MatchedValidates(token);
    }
  }

  lemma ValidatedMatches(token: string)
    requires ValidShape(token)
    ensures MatchesPattern(token)
  {
    var k := |token| - 16;
    TokenOfSlices(token, k);
    assert ValidSegments(token[..5], token[6..6 + k], token[7 + k..11 + k], token[12 + k..]);
  }

  lemma MatchedValidates(token: string)
    requires MatchesPattern(token)
    ensures ValidShape(token)
  {
    var p, a, b, c :| token == Token(p, a, b, c) && ValidSegments(p, a, b, c);
    PrefixHasNoHyphen(p);
    TokenLayout(p, a, b, c);
  }

  lemma AlnumHasNoHyphen(s: string)
    requires AllAlnum(s)
    ensures '-' !in s
  {
  }

  lemma DigitsHaveNoHyphen(s: string)
    requires AllDigits(s)
    ensures '-' !in s
  {
  }

  lemma PrefixHasNoHyphen(p: string)
    requires EqualsIgnoreCase(p, Prefix)
    ensures |p| == 5 && '-' !in p
  {
    assert |Lower(p)| == |Lower(Prefix)|;
  }

  /** A token splits at its hyphens into the four segments it was built from,
      the first of which is kept whole when it has no hyphen of its own. */
  lemma SplitToken(p: string, a: string, b: string, c: string)
    requires '-' !in p && '-' !in b && '-' !in c
    ensures Split(Token(p, a, b, c), '-') == [p] + Split(a, '-') + [b, c]
  {
    var bc := b + ['-'] + c;
    var abc := a + ['-'] + bc;
    assert Token(p, a, b, c) == p + ['-'] + abc;
    SplitAtFirst(p, abc, '-');
    SplitConcat(a, bc, '-');
    SplitAtFirst(b, c, '-');
    SplitWithoutSeparator(c, '-');
    AppendAssoc([p], Split(a, '-'), [b, c]);
  }

  /** A generated id passes validation exactly when the tournament id is
      non-empty and ends in letters and digits, the random draw produced at
      least four base-36 digits, and the clock reads at least 1000. */
  lemma GeneratedIsValidIff(tournamentId: string, fraction: string, now: nat)
    requires IsBase36(fraction)
    ensures Validate(Generate(tournamentId, fraction, now)) <==>
              |tournamentId| >= 1 && AllAlnum(TournamentSuffix(tournamentId))
              && |fraction| >= 4 && now >= 1000
  {
    var sfx, rand, time := TournamentSuffix(tournamentId), RandomPart(fraction), TimePart(now);
    var token := Generate(tournamentId, fraction, now);
    ValidateIsPattern(token);
    if |tournamentId| >= 1 && AllAlnum(sfx) && |fraction| >= 4 && now >= 1000 {
      assert ValidSegments(Prefix, sfx, rand, time);
    }
    if MatchesPattern(token) {
      var p, a, b, c :| token == Token(p, a, b, c) && ValidSegments(p, a, b, c);
      SegmentsOfGenerated(sfx, rand, time, p, a, b, c);
    }
  }

  /** A token built from a hyphen-free random and time part decomposes into
      pattern segments only along its own hyphens. */
  lemma SegmentsOfGenerated(sfx: string, rand: string, time: string,
                            p: string, a: string, b: string, c: string)
    requires '-' !in rand && '-' !in time
    requires Token(Prefix, sfx, rand, time) == Token(p, a, b, c)
    requires ValidSegments(p, a, b, c)
    ensures a == sfx && b == rand && c == time
  {
    PrefixHasNoHyphen(p);
    AlnumHasNoHyphen(a);
    AlnumHasNoHyphen(b);
    DigitsHaveNoHyphen(c);
    SplitToken(p, a, b, c);
    SplitWithoutSeparator(a, '-');
    SplitToken(Prefix, sfx, rand, time);
    var parts := Split(sfx, '-');
    var lhs, rhs := [p] + [a] + [b, c], [Prefix] + parts + [rand, time];
    assert lhs == rhs;
    assert |parts| == 1;
    assert lhs[1] == rhs[1] && lhs[2] == rhs[2] && lhs[3] == rhs[3];
    JoinSplit(sfx, '-');
    assert Join(parts, '-') == parts[0];
  }

  /** `v` is the text between the first and the second hyphen of `token`,
      or everything after the first hyphen when there is no second one. */
  ghost predicate IsSecondSegment(token: string, v: string) {
    exists i :: 0 <= i < |token| && token[i] == '-' && '-' !in token[..i] && StartsSegment(token[i + 1..], v)
  }

  /** `t` starts with the hyphen-free `v`, followed by a hyphen or by nothing. */
  predicate StartsSegment(t: string, v: string) {
    '-' !in v && |v| <= |t| && t[..|v|] == v && (|v| == |t| || t[|v|] == '-')
  }

  /** `extractTournamentFromToken`: the second hyphen-separated segment; an
      error when the token has no hyphen at all. */
  function ExtractTournament(token: string): (r: Result<string, string>)
    ensures r.Ok? <==> '-' in token
    ensures r.Ok? ==> '-' !in r.value && IsSecondSegment(token, r.value)
    ensures r.Err? ==> r.error == "Invalid participant token format"
  {
    SplitSingleIffNoSeparator(token, '-');
    var parts := Split(token, '-');
    if |parts| >= 2 then
      SecondPieceIsSecondSegment(token);
      Ok(parts[1])
    else
      Err("Invalid participant token format")
  }

  lemma SecondPieceIsSecondSegment(token: string)
    requires '-' in token
    ensures |Split(token, '-')| >= 2 && IsSecondSegment(token, Split(token, '-')[1])
  {
    var parts := Split(token, '-');
    SplitHeadAndRest(token, '-');
    JoinStartsWithFirst(parts[1..]);
    SegmentWitness(token, parts[0], Join(parts[1..], '-'), parts[1]);
  }

  /** Hyphen-free parts joined with hyphens start with their first part as a segment. */
  lemma JoinStartsWithFirst(parts: seq<string>)
    requires |parts| >= 1
    requires forall i :: 0 <= i < |parts| ==> '-' !in parts[i]
    ensures StartsSegment(Join(parts, '-'), parts[0])
  {
    if |parts| > 1 {
      var t := Join(parts, '-');
      assert t == parts[0] + ['-'] + Join(parts[1..], '-');
      assert t[..|parts[0]|] == parts[0];
    }
  }

  lemma SegmentWitness(token: string, a: string, t: string, v: string)
    requires token == a + ['-'] + t && '-' !in a && StartsSegment(t, v)
    ensures IsSecondSegment(token, v)
  {
    var i := |a|;
    assert token[i] == '-' && token[..i] == a && token[i + 1..] == t;
  }

  /** The first piece of a split is the segment the text starts with. */
  lemma StartsSegmentSplit(t: string, v: string)
    requires StartsSegment(t, v)
    ensures Split(t, '-')[0] == v
  {
    if |v| == |t| {
      assert t == v;
      SplitWithoutSeparator(v, '-');
    } else {
      assert t == v + ['-'] + t[|v| + 1..];
      SplitAtFirst(v, t[|v| + 1..], '-');
    }
  }

  /** Conversely, whatever a token holds between its first and second
      hyphen is what extraction returns. */
  lemma SecondSegmentIsExtracted(token: string, v: string)
    requires IsSecondSegment(token, v)
    ensures ExtractTournament(token) == Ok(v)
  {
    var i :| 0 <= i < |token| && token[i] == '-' && '-' !in token[..i] && StartsSegment(token[i + 1..], v);
    var a, t := token[..i], token[i + 1..];
    assert token == a + ['-'] + t;
    SplitAtFirst(a, t, '-');
    StartsSegmentSplit(t, v);
  }

  /** Extracting from a generated id returns the tournament suffix exactly
      when that suffix has no hyphen; otherwise it returns only the text of
      the suffix before its first hyphen. */
  lemma ExtractGenerated(tournamentId: string, fraction: string, now: nat)
    requires IsBase36(fraction)
    ensures var sfx := TournamentSuffix(tournamentId);
            var r := ExtractTournament(Generate(tournamentId, fraction, now));
            r.Ok? && (r.value == sfx <==> '-' !in sfx)
            && r.value == Split(sfx, '-')[0]
  {
    var sfx, rand, time := TournamentSuffix(tournamentId), RandomPart(fraction), TimePart(now);
    var token := Generate(tournamentId, fraction, now);
    var sp := Split(sfx, '-');
    assert Split(token, '-') == [Prefix] + sp + [rand, time] by {
      PrefixHasNoHyphen(Prefix);
      SplitToken(Prefix, sfx, rand, time);
    }
    assert ExtractTournament(token) == Ok(sp[0]);
    if '-' !in sfx {
      SplitWithoutSeparator(sfx, '-');
    } else {
      assert '-' !in sp[0];
    }
  }

  /** An id whose last four characters contain a hyphen is cut at that
      hyphen: only the text before it is recovered. */
  lemma ExtractCutsAtHyphen(tournamentId: string, head: string, tail: string, fraction: string, now: nat)
    requires IsBase36(fraction)
    requires TournamentSuffix(tournamentId) == head + "-" + tail && '-' !in head
    ensures ExtractTournament(Generate(tournamentId, fraction, now)) == Ok(head)
  {
    ExtractGenerated(tournamentId, fraction, now);
    SplitAtFirst(head, tail, '-');
  }

  /** The fixture id "demo-1" yields a participant id from which the
      tournament suffix cannot be recovered. */
  lemma ExtractLosesHyphenatedSuffix(fraction: string, now: nat)
    requires IsBase36(fraction)
    ensures ExtractTournament(Generate("demo-1", fraction, now)) == Ok("mo")
  {
    assert TournamentSuffix("demo-1") == "mo" + "-" + "1";
    ExtractCutsAtHyphen("demo-1", "mo", "1", fraction, now);
  }

  /** The demonstration token served when the participant list is unavailable
      does not pass the validator: its random segment has six characters. */
  lemma DemoTokenIsInvalid()
    ensures !Validate("BGMIP-DEMO-123456-1234")
    ensures !Validate("not-a-token")
  {
    assert |"BGMIP-DEMO-123456-1234"| == 22;
    assert "BGMIP-DEMO-123456-1234"[12] != '-';
  }
}
