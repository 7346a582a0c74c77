// String helpers of src/Utils/Utils.cpp: split, sanitize and the character
// classes behind the validators. A std::string is a Dafny string, one char per byte.
module Text {
  import opened Wrappers

  // ---------------------------------------------------------------- searching

  predicate MatchesAt(s: string, d: string, k: nat) {
    k + |d| <= |s| && s[k..k + |d|] == d
  }

  // std::string::find: the least position at or after start where d occurs.
  function Find(s: string, d: string, start: nat): (r: Option<nat>)
    requires start <= |s|
    ensures r.None? ==> forall k: nat | start <= k :: !MatchesAt(s, d, k)
    ensures r.Some? ==> start <= r.value && MatchesAt(s, d, r.value)
    ensures r.Some? ==> forall k: nat | start <= k < r.value :: !MatchesAt(s, d, k)
    decreases |s| - start
  {
    if MatchesAt(s, d, start) then Some(start)
    else if start == |s| then None
    else Find(s, d, start + 1)
  }

  predicate Free(s: string, d: string) {
    Find(s, d, 0).None?
  }

  lemma MatchesChar(s: string, c: char, k: nat)
    ensures MatchesAt(s, [c], k) <==> k < |s| && s[k] == c
  {
    if k < |s| {
      assert s[k..k + 1] == [s[k]];
    }
  }

  lemma FreeOfChar(s: string, c: char)
    ensures Free(s, [c]) <==> c !in s
  {
    hide Find, MatchesAt;
    forall k: nat ensures MatchesAt(s, [c], k) <==> k < |s| && s[k] == c {
      MatchesChar(s, c, k);
    }
    if Find(s, [c], 0).Some? {
      assert s[Find(s, [c], 0).value] == c;
    }
  }

  // The contract of Find determines it.
  lemma FindIs(s: string, d: string, start: nat, k: nat)
    requires start <= k && MatchesAt(s, d, k)
    requires forall j: nat | start <= j < k :: !MatchesAt(s, d, j)
    ensures Find(s, d, start) == Some(k)
  {
    hide Find;
    match Find(s, d, start)
    case Some(j) => assert j == k;
    case None => assert false;
  }

  lemma MatchInSuffix(s: string, d: string, start: nat, k: nat)
    requires start <= |s|
    ensures MatchesAt(s[start..], d, k) <==> MatchesAt(s, d, start + k)
  {
    if start + k + |d| <= |s| {
      assert s[start..][k..k + |d|] == s[start + k..start + k + |d|];
    }
  }

  lemma MatchInPrefix(s: string, d: string, n: nat, k: nat)
    requires d != "" && n <= |s|
    ensures MatchesAt(s[..n], d, k) ==> k < n && MatchesAt(s, d, k)
  {
    if k + |d| <= n {
      assert s[..n][k..k + |d|] == s[k..k + |d|];
    }
  }

  lemma FoundFits(s: string, d: string, start: nat)
    requires start <= |s| && Find(s, d, start).Some?
    ensures var k := Find(s, d, start).value; k + |d| <= |s| && s[k..k + |d|] == d
  {
  }

  lemma FindInSuffix(s: string, d: string, start: nat)
    requires start <= |s|
    ensures Find(s[start..], d, 0).Some? == Find(s, d, start).Some?
    ensures Find(s, d, start).Some? ==> Find(s, d, start).value == start + Find(s[start..], d, 0).value
  {
    hide Find, MatchesAt;
    forall k: nat ensures MatchesAt(s[start..], d, k) <==> MatchesAt(s, d, start + k) {
      MatchInSuffix(s, d, start, k);
    }
    match Find(s[start..], d, 0)
    case Some(k) =>
      forall j: nat | start <= j < start + k ensures !MatchesAt(s, d, j) {
        assert !MatchesAt(s[start..], d, j - start);
      }
      FindIs(s, d, start, start + k);
    case None =>
      forall j: nat | start <= j ensures !MatchesAt(s, d, j) {
        assert !MatchesAt(s[start..], d, j - start);
      }
  }

  // ------------------------------------------------------------ split and join

  // The pieces of s between occurrences of d, found from the left.
  function Pieces(s: string, d: string): (ts: seq<string>)
    requires d != ""
    ensures |ts| > 0
    decreases |s|
  {
    match Find(s, d, 0)
    case None => [s]
    case Some(k) => [s[..k]] + Pieces(s[k + |d|..], d)
  }

  // What split returns: nothing for an empty string or an empty delimiter.
  function Tokens(s: string, d: string): seq<string> {
    if s == "" || d == "" then [] else Pieces(s, d)
  }

  function Join(ts: seq<string>, d: string): string {
    if ts == [] then "" else if |ts| == 1 then ts[0] else ts[0] + d + Join(ts[1..], d)
  }

  lemma PiecesAtMatch(s: string, d: string, k: nat)
    requires d != "" && Find(s, d, 0) == Some(k) && k + |d| <= |s|
    ensures Pieces(s, d) == [s[..k]] + Pieces(s[k + |d|..], d)
  {
    hide Find, MatchesAt;
  }

  lemma PiecesFrom(s: string, d: string, start: nat, end: nat)
    requires d != "" && start <= end <= end + |d| <= |s| && Find(s, d, start) == Some(end)
    ensures Pieces(s[start..], d) == [s[start..end]] + Pieces(s[end + |d|..], d)
  {
    hide Find, MatchesAt, Pieces;
    var rest, k := s[start..], end - start;
    FindInSuffix(s, d, start);
    PiecesAtMatch(rest, d, k);
    assert rest[..k] == s[start..end];
    assert rest[k + |d|..] == s[end + |d|..];
  }

  method Split(s: string, delimiter: string) returns (tokens: seq<string>)
    ensures tokens == Tokens(s, delimiter)
  {
    hide Find, MatchesAt;
    tokens := [];
    if s == "" || delimiter == "" {
      return;
    }
    var start: nat := 0;
    var end := Find(s, delimiter, 0);
    ghost var rest := Pieces(s, delimiter);
    assert s[0..] == s;
    while end.Some?
      invariant start <= |s| && end == Find(s, delimiter, start)
      invariant rest == Pieces(s[start..], delimiter)
      invariant tokens + rest == Pieces(s, delimiter)
      decreases |s| - start
    {
      FoundFits(s, delimiter, start);
      PiecesFrom(s, delimiter, start, end.value);
      tokens := tokens + [s[start..end.value]];
      start := end.value + |delimiter|;
      end := Find(s, delimiter, start);
      rest := rest[1..];
    }
    FindInSuffix(s, delimiter, start);
    tokens := tokens + [s[start..]];
  }

  // Nothing comes out exactly for an empty string or delimiter, and the first token ends
  // at the first occurrence of the delimiter.
  lemma FirstToken(s: string, d: string)
    ensures Tokens(s, d) == [] <==> s == "" || d == ""
    ensures s != "" && d != "" ==> var t := Tokens(s, d)[0];
              t <= s && (forall k | 0 <= k < |t| :: !MatchesAt(s, d, k)) && (t == s || MatchesAt(s, d, |t|))
  {
    hide MatchesAt;
    if s != "" && d != "" && Find(s, d, 0).Some? { FoundFits(s, d, 0); }
  }

  // Joining the tokens gives the string back, for every delimiter.
  lemma {:induction false} JoinTokens(s: string, d: string)
    requires d != ""
    ensures Join(Tokens(s, d), d) == s
  {
    if s != "" { JoinPieces(s, d); }
  }

  lemma JoinCons(t: string, ts: seq<string>, d: string)
    requires ts != []
    ensures Join([t] + ts, d) == t + d + Join(ts, d)
  {
    assert ([t] + ts)[1..] == ts;
  }

  lemma {:induction false} JoinPieces(s: string, d: string)
    requires d != ""
    ensures Join(Pieces(s, d), d) == s
    decreases |s|
  {
    hide Find, MatchesAt;
    match Find(s, d, 0)
    case None =>
    case Some(k) =>
      FoundFits(s, d, 0);
      var rest := s[k + |d|..];
      JoinPieces(rest, d);
      JoinCons(s[..k], Pieces(rest, d), d);
      assert s == s[..k] + s[k..k + |d|] + rest;
  }

  // No token contains the delimiter.
  lemma {:induction false} TokensAreFree(s: string, d: string)
    requires d != ""
    ensures forall t | t in Tokens(s, d) :: Free(t, d)
  {
    if s != "" { PiecesAreFree(s, d); }
  }

  lemma {:induction false} PiecesAreFree(s: string, d: string)
    requires d != ""
    ensures forall t | t in Pieces(s, d) :: Free(t, d)
    decreases |s|
  {
    hide Find, MatchesAt;
    match Find(s, d, 0)
    case None =>
    case Some(k) =>
      FoundFits(s, d, 0);
      PiecesAreFree(s[k + |d|..], d);
      forall j: nat ensures !MatchesAt(s[..k], d, j) {
        MatchInPrefix(s, d, k, j);
      }
      assert Free(s[..k], d);
  }

  lemma FindChar(s: string, c: char, k: nat)
    requires k < |s| && s[k] == c && c !in s[..k]
    ensures Find(s, [c], 0) == Some(k)
  {
    hide Find, MatchesAt;
    MatchesChar(s, c, k);
    forall j: nat | j < k ensures !MatchesAt(s, [c], j) {
      MatchesChar(s, c, j);
      assert s[..k][j] == s[j];
    }
    FindIs(s, [c], 0, k);
  }

  lemma FoundChar(s: string, c: char)
    requires Find(s, [c], 0).Some?
    ensures var k := Find(s, [c], 0).value; k < |s| && s[k] == c && c !in s[..k]
  {
    hide Find, MatchesAt;
    var k := Find(s, [c], 0).value;
    MatchesChar(s, c, k);
    forall j: nat | j < k ensures s[j] != c {
      MatchesChar(s, c, j);
    }
  }

  // A one-character delimiter splits a concatenation independently on both sides.
  lemma {:induction false} PiecesOfConcat(a: string, c: char, b: string)
    ensures Pieces(a + [c] + b, [c]) == Pieces(a, [c]) + Pieces(b, [c])
    decreases |a|
  {
    hide Find, MatchesAt;
    var s := a + [c] + b;
    match Find(a, [c], 0)
    case None =>
      FreeOfChar(a, c);
      assert s[..|a|] == a && s[|a| + 1..] == b;
      FindChar(s, c, |a|);
    case Some(k) =>
      FoundChar(a, c);
      assert s[..k] == a[..k] && s[k + 1..] == a[k + 1..] + [c] + b;
      FindChar(s, c, k);
      PiecesOfConcat(a[k + 1..], c, b);
  }

  // The pieces of each string, one after the other.
  function AllPieces(ts: seq<string>, d: string): seq<string>
    requires d != ""
  {
    if ts == [] then [] else Pieces(ts[0], d) + AllPieces(ts[1..], d)
  }

  lemma AllPiecesCons(t: string, ts: seq<string>, d: string)
    requires d != ""
    ensures AllPieces([t] + ts, d) == Pieces(t, d) + AllPieces(ts, d)
    ensures Free(t, d) ==> Pieces(t, d) == [t]
  {
    assert ([t] + ts)[1..] == ts;
  }

  lemma {:induction false} PiecesOfJoin(ts: seq<string>, c: char)
    requires ts != []
    ensures Pieces(Join(ts, [c]), [c]) == AllPieces(ts, [c])
  {
    if |ts| == 1 {
      assert AllPieces(ts[1..], [c]) == [];
    } else {
      PiecesOfConcat(ts[0], c, Join(ts[1..], [c]));
      PiecesOfJoin(ts[1..], c);
    }
  }

  lemma {:induction false} AllPiecesOfFree(ts: seq<string>, d: string)
    requires d != "" && forall t | t in ts :: Free(t, d)
    ensures AllPieces(ts, d) == ts
  {
    if ts != [] {
      assert Free(ts[0], d);
      assert forall t | t in ts[1..] :: t in ts;
      AllPiecesOfFree(ts[1..], d);
      assert [ts[0]] + ts[1..] == ts;
    }
  }

  // The words after the first, joined again, are the text as typed, blanks included.
  lemma RejoinRest(first: string, c: char, rest: string)
    requires Free(first, [c])
    ensures Tokens(first + [c] + rest, [c])[0] == first
    ensures Join(Tokens(first + [c] + rest, [c])[1..], [c]) == rest
  {
    hide Find;
    PiecesOfConcat(first, c, rest);
    JoinPieces(rest, [c]);
    assert Pieces(first, [c]) == [first];
    assert ([first] + Pieces(rest, [c]))[1..] == Pieces(rest, [c]);
  }

  // Splitting undoes joining exactly for delimiter-free fields other than [""].
  lemma {:induction false} SplitJoin(ts: seq<string>, c: char)
    ensures Tokens(Join(ts, [c]), [c]) == ts <==> (forall t | t in ts :: Free(t, [c])) && ts != [""]
  {
    TokensAreFree(Join(ts, [c]), [c]);
    if ts != [] && forall t | t in ts :: Free(t, [c]) {
      PiecesOfJoin(ts, c);
      AllPiecesOfFree(ts, [c]);
    }
  }

  // ------------------------------------------------------------------ sanitize

  // iscntrl in the "C" locale.
  predicate IsControl(c: char) {
    c as int < 32 || c as int == 127
  }

  predicate Replaced(c: char) {
    IsControl(c) && c != '\n' && c != '\t'
  }

  function Cleaned(c: char): char {
    if Replaced(c) then ' ' else c
  }

  function Sanitized(s: string): (r: string)
    ensures |r| == |s|
    ensures forall i | 0 <= i < |s| :: r[i] == Cleaned(s[i])
  {
    seq(|s|, i requires 0 <= i < |s| => Cleaned(s[i]))
  }

  method Sanitize(input: string) returns (result: string)
    ensures result == Sanitized(input)
  {
    result := "";
    for i := 0 to |input|
      invariant result == Sanitized(input)[..i]
    {
      var c := input[i];
      if IsControl(c) && c != '\n' && c != '\t' {
        result := result + " ";
      } else {
        result := result + [c];
      }
    }
  }

  // Only control characters other than newline and tab change, to blanks; none is left;
  // a second pass changes nothing.
  lemma SanitizedIsClean(s: string)
    ensures var r := Sanitized(s);
            forall i | 0 <= i < |s| ::
              if (s[i] as int < 32 || s[i] as int == 127) && s[i] != '\n' && s[i] != '\t' then r[i] == ' ' else r[i] == s[i]
    ensures forall c | c in Sanitized(s) :: !IsControl(c) || c == '\n' || c == '\t'
    ensures Sanitized(Sanitized(s)) == Sanitized(s)
  {
  }

  function SanitizedAll(ts: seq<string>): (r: seq<string>)
    ensures |r| == |ts|
    ensures forall i | 0 <= i < |ts| :: r[i] == Sanitized(ts[i])
  {
    seq(|ts|, i requires 0 <= i < |ts| => Sanitized(ts[i]))
  }

  // Sanitizing neither adds nor removes a printable delimiter, so the fields of a
  // sanitized line are the sanitized fields.
  lemma {:induction false} PiecesOfSanitized(s: string, c: char)
    requires !IsControl(c) && c != ' '
    ensures Pieces(Sanitized(s), [c]) == SanitizedAll(Pieces(s, [c]))
    decreases |s|
  {
    hide Find, MatchesAt;
    var r := Sanitized(s);
    match Find(s, [c], 0)
    case None =>
      FreeOfChar(s, c);
      FreeOfChar(r, c);
    case Some(k) =>
      FoundChar(s, c);
      FindChar(r, c, k);
      assert r[..k] == Sanitized(s[..k]);
      assert r[k + 1..] == Sanitized(s[k + 1..]);
      PiecesOfSanitized(s[k + 1..], c);
  }

  lemma SplitSanitized(s: string, c: char)
    requires !IsControl(c) && c != ' '
    ensures Tokens(Sanitized(s), [c]) == SanitizedAll(Tokens(s, [c]))
  {
    if s != "" { PiecesOfSanitized(s, c); }
  }

  // ------------------------------------------------------------------- names

  // isalnum in the "C" locale, or an underscore.
  predicate IsWordChar(c: char) {
    'a' <= c <= 'z' || 'A' <= c <= 'Z' || '0' <= c <= '9' || c == '_'
  }

  predicate IsWord(s: string) {
    s != "" && forall c | c in s :: IsWordChar(c)
  }

  // By code: digits, capitals, underscore, small letters.
  lemma WordCodes(s: string)
    ensures IsWord(s) <==> |s| >= 1 && forall i | 0 <= i < |s| ::
              48 <= s[i] as int <= 57 || 65 <= s[i] as int <= 90 || s[i] as int == 95 || 97 <= s[i] as int <= 122
  {
    if IsWord(s) {
      forall i | 0 <= i < |s| ensures IsWordChar(s[i]) { assert s[i] in s; }
    }
  }

  // Sanitizing never makes a word of anything else.
  lemma SanitizedWord(s: string)
    requires IsWord(Sanitized(s))
    ensures Sanitized(s) == s
  {
    forall i | 0 <= i < |s| ensures Sanitized(s)[i] == s[i] {
      assert Sanitized(s)[i] in Sanitized(s) && IsWordChar(Cleaned(s[i]));
    }
  }

  // A word contains no protocol delimiter, no newline, no comma.
  lemma WordIsFree(s: string, c: char)
    requires IsWord(s) && !IsWordChar(c)
    ensures Free(s, [c]) && c !in s
  {
    FreeOfChar(s, c);
  }
}
