/** `resolve_calendar_scopes` in api/main.py: the OAuth scopes requested for
    the calendar credentials, taken from `CALENDAR_SCOPES` when it is set. */
module Scopes {
  import opened Text
  import opened Environment

  const ScopesVar: string := "CALENDAR_SCOPES"

  const CalendarScope: string := "https://www.googleapis.com/auth/calendar"

  const DefaultScopes: seq<string> := [CalendarScope]

  /** A scope as the list comprehension keeps it: not empty, not padded,
      and holding no comma. */
  predicate CleanScope(s: string) {
    s != [] && Stripped(s) && ',' !in s
  }

  /** Only commas and whitespace. */
  predicate Blank(s: string) {
    forall k :: 0 <= k < |s| ==> s[k] == ',' || IsSpace(s[k])
  }

  /** `[p.strip() for p in pieces if p.strip()]`. */
  function StripNonEmpty(pieces: seq<string>): (scopes: seq<string>)
    requires forall i :: 0 <= i < |pieces| ==> ',' !in pieces[i]
    ensures |scopes| <= |pieces|
    ensures forall i :: 0 <= i < |scopes| ==> CleanScope(scopes[i])
    ensures |pieces| == 1 ==> scopes == (if AllSpace(pieces[0]) then [] else [Strip(pieces[0])])
  {
    if pieces == [] then []
    else
      var s := Strip(pieces[0]);
      StripKeeps(pieces[0], ',');
      (if s == [] then [] else [s]) + StripNonEmpty(pieces[1..])
  }

  /** The scopes a non-empty `CALENDAR_SCOPES` value names. */
  function ScopesIn(value: string): seq<string> {
    StripNonEmpty(Split(value, ','))
  }

  /** `resolve_calendar_scopes()`: the listed scopes when the variable is set
      and non-empty (possibly none at all), the default list otherwise. */
  function ResolveScopes(env: Env): (scopes: seq<string>)
    ensures !IsSet(env, ScopesVar) ==> scopes == DefaultScopes
    ensures IsSet(env, ScopesVar) ==> forall i :: 0 <= i < |scopes| ==> CleanScope(scopes[i])
  {
    if IsSet(env, ScopesVar) then ScopesIn(env[ScopesVar]) else DefaultScopes
  }

  lemma BlankTail(value: string)
    requires value != []
    ensures Blank(value) <==> (value[0] == ',' || IsSpace(value[0])) && Blank(value[1..])
  {
    var s := value[1..];
    assert forall k :: 0 <= k < |s| ==> value[k + 1] == s[k];
    if (value[0] == ',' || IsSpace(value[0])) && Blank(s) {
      forall k | 0 <= k < |value| ensures value[k] == ',' || IsSpace(value[k]) {
        if k > 0 { assert value[k] == s[k - 1]; }
      }
    }
  }

  lemma AllSpaceCons(c: char, s: string)
    ensures AllSpace([c] + s) <==> IsSpace(c) && AllSpace(s)
  {
    var t := [c] + s;
    assert t[0] == c;
    assert forall k :: 0 <= k < |s| ==> t[k + 1] == s[k];
    if IsSpace(c) && AllSpace(s) {
      forall k | 0 <= k < |t| ensures IsSpace(t[k]) {
        if k > 0 { assert t[k] == s[k - 1]; }
      }
    }
  }

  /** How the scopes of a value relate to those of its tail. */
  lemma ScopesInCons(value: string)
    requires value != []
    ensures ScopesIn(value) == [] <==>
              (value[0] == ',' || IsSpace(value[0])) && ScopesIn(value[1..]) == []
  {
    var rest := Split(value[1..], ',');
    assert rest == [rest[0]] + rest[1..];
    if value[0] == ',' {
      assert Split(value, ',') == [[]] + rest;
      assert ([[]] + rest)[1..] == rest;
    } else {
      var first := [value[0]] + rest[0];
      assert Split(value, ',') == [first] + rest[1..];
      assert ([first] + rest[1..])[1..] == rest[1..];
      AllSpaceCons(value[0], rest[0]);
      assert ScopesIn(value) == [] <==> AllSpace(first) && StripNonEmpty(rest[1..]) == [];
      assert StripNonEmpty(rest) == [] <==> AllSpace(rest[0]) && StripNonEmpty(rest[1..]) == [];
    }
  }

  lemma {:induction false} NoScopesInBlank(value: string)
    ensures ScopesIn(value) == [] <==> Blank(value)
    decreases |value|
  {
    if value != [] {
      NoScopesInBlank(value[1..]);
      ScopesInCons(value);
      BlankTail(value);
    }
  }

  /** A non-empty value made only of commas and blanks resolves to no scope
      at all, not to the default; any other non-empty value names at least
      one scope. */
  lemma BlankValueNamesNoScope(env: Env)
    requires IsSet(env, ScopesVar)
    ensures ResolveScopes(env) == [] <==> Blank(env[ScopesVar])
  {
    NoScopesInBlank(env[ScopesVar]);
  }

  /** Every piece stripped, none dropped. */
  function StripAll(pieces: seq<string>): (r: seq<string>)
    ensures |r| == |pieces|
  {
    seq(|pieces|, i requires 0 <= i < |pieces| => Strip(pieces[i]))
  }

  lemma {:induction false} StripEach(pieces: seq<string>)
    requires forall i :: 0 <= i < |pieces| ==> ',' !in pieces[i] && !AllSpace(pieces[i])
    ensures StripNonEmpty(pieces) == StripAll(pieces)
    decreases |pieces|
  {
    if pieces != [] {
      StripEach(pieces[1..]);
      assert StripAll(pieces) == [Strip(pieces[0])] + StripAll(pieces[1..]);
    }
  }

  lemma ScopesInJoined(pieces: seq<string>)
    requires |pieces| >= 1
    requires forall i :: 0 <= i < |pieces| ==> ',' !in pieces[i]
    ensures ScopesIn(Join(pieces, ",")) == StripNonEmpty(pieces)
  {
    SplitJoin(pieces, ',');
  }

  /** The comprehension works piece by piece: the scopes of a list of
      pieces are the scopes of its first part followed by those of the rest. */
  lemma {:induction false} StripNonEmptyAppend(a: seq<string>, b: seq<string>)
    requires forall i :: 0 <= i < |a| ==> ',' !in a[i]
    requires forall i :: 0 <= i < |b| ==> ',' !in b[i]
    ensures StripNonEmpty(a + b) == StripNonEmpty(a) + StripNonEmpty(b)
    decreases |a|
  {
    if a == [] {
      assert a + b == b;
    } else {
      assert (a + b)[0] == a[0];
      assert (a + b)[1..] == a[1..] + b;
      StripNonEmptyAppend(a[1..], b);
    }
  }

  /** The non-empty strings of `xs`, in order. */
  function DropEmpty(xs: seq<string>): (r: seq<string>)
    ensures |r| <= |xs|
    ensures forall i :: 0 <= i < |r| ==> r[i] != []
    ensures (forall i :: 0 <= i < |xs| ==> xs[i] != []) ==> r == xs
  {
    if xs == [] then [] else (if xs[0] == [] then [] else [xs[0]]) + DropEmpty(xs[1..])
  }

  /** The comprehension is "strip every piece, then drop the empty results". */
  lemma {:induction false} StripThenDrop(pieces: seq<string>)
    requires forall i :: 0 <= i < |pieces| ==> ',' !in pieces[i]
    ensures StripNonEmpty(pieces) == DropEmpty(StripAll(pieces))
    decreases |pieces|
  {
    if pieces != [] {
      StripThenDrop(pieces[1..]);
      assert StripAll(pieces) == [Strip(pieces[0])] + StripAll(pieces[1..]);
      assert StripAll(pieces)[1..] == StripAll(pieces[1..]);
    }
  }

  /** Scopes written as a comma-separated list, each with or without
      surrounding blanks: every piece comes back stripped, in order, and the
      pieces that strip to nothing are dropped. */
  lemma ResolveListed(env: Env, pieces: seq<string>)
    requires |pieces| >= 1
    requires forall i :: 0 <= i < |pieces| ==> ',' !in pieces[i]
    requires IsSet(env, ScopesVar) && env[ScopesVar] == Join(pieces, ",")
    ensures ResolveScopes(env) == DropEmpty(StripAll(pieces))
  {
    ScopesInJoined(pieces);
    StripThenDrop(pieces);
  }

  /** Writing the resolved scopes back out with commas and resolving again
      gives the same list. */
  lemma ResolveIdempotent(env: Env, env': Env)
    requires IsSet(env, ScopesVar) && ResolveScopes(env) != []
    requires ScopesVar in env' && env'[ScopesVar] == Join(ResolveScopes(env), ",")
    ensures ResolveScopes(env') == ResolveScopes(env)
  {
    var scopes := ResolveScopes(env);
    CleanScopesStripToThemselves(scopes);
    JoinNonEmpty(scopes, ",");
    ScopesInJoined(scopes);
    StripEach(scopes);
    assert StripAll(scopes) == scopes;
  }

  lemma CleanScopesStripToThemselves(scopes: seq<string>)
    requires forall i :: 0 <= i < |scopes| ==> CleanScope(scopes[i])
    ensures forall i :: 0 <= i < |scopes| ==> !AllSpace(scopes[i]) && Strip(scopes[i]) == scopes[i]
  {
    forall i | 0 <= i < |scopes| ensures !AllSpace(scopes[i]) && Strip(scopes[i]) == scopes[i] {
      assert !IsSpace(scopes[i][0]);
      StripPadded([], scopes[i], []);
      assert [] + scopes[i] + [] == scopes[i];
    }
  }
}
