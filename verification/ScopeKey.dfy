/** Knowledge-space scopes and their flattened keys. */
module ScopeKey {
  import opened Common
  import opened ClaimModel

  const AGENT_SCOPE_SEPARATOR: char := '/'
  const AGENT_PERSISTENCE_SEPARATOR: char := '|'

  datatype IdentityError = Empty | TooLong | ControlCharacter | ReservedCharacter | MalformedScopeKey

  predicate IsControl(c: char) {
    c < ' ' || '\U{7F}' <= c <= '\U{9F}'
  }

  /** `validate_identity_segment`: the first rule a segment breaks, if any. */
  function SegmentError(value: string): Option<IdentityError> {
    if value == "" then Some(Empty)
    else if |value| > AGENT_IDENTITY_MAX_LENGTH then Some(TooLong)
    else if exists i :: 0 <= i < |value| && IsControl(value[i]) then Some(ControlCharacter)
    else if AGENT_SCOPE_SEPARATOR in value || AGENT_PERSISTENCE_SEPARATOR in value then Some(ReservedCharacter)
    else None
  }

  ghost predicate ValidScope(scope: Scope) {
    SegmentError(scope.tenant).None? && SegmentError(scope.space).None?
  }

  /** `KnowledgeSpaceScope::key`. */
  function Key(scope: Scope): string {
    scope.tenant + [AGENT_SCOPE_SEPARATOR] + scope.space
  }

  /** `str::split` on one character. */
  function Split(s: string, separator: char): seq<string> {
    if s == "" then [""]
    else
      var rest := Split(s[1..], separator);
      if s[0] == separator then [""] + rest else [[s[0]] + rest[0]] + rest[1..]
  }

  /** `KnowledgeSpaceScope::parse`. */
  function Parse(key: string): Result<Scope, IdentityError> {
    var segments := Split(key, AGENT_SCOPE_SEPARATOR);
    if |segments| != 2 then Err(MalformedScopeKey)
    else if SegmentError(segments[1]).Some? then Err(SegmentError(segments[1]).value)
    else if SegmentError(segments[0]).Some? then Err(SegmentError(segments[0]).value)
    else Ok(Scope(segments[0], segments[1]))
  }

  lemma {:induction false} SplitClean(s: string, separator: char)
    requires separator !in s
    ensures Split(s, separator) == [s]
  {
    if s != "" {
      SplitClean(s[1..], separator);
      assert [s[0]] + s[1..] == s;
    }
  }

  lemma {:induction false} SplitPair(left: string, right: string, separator: char)
    requires separator !in left && separator !in right
    ensures Split(left + [separator] + right, separator) == [left, right]
  {
    var s := left + [separator] + right;
    if left == "" {
      assert s[1..] == right;
      SplitClean(right, separator);
    } else {
      assert s[1..] == left[1..] + [separator] + right;
      SplitPair(left[1..], right, separator);
      assert [left[0]] + left[1..] == left;
    }
  }

  function Join(segments: seq<string>, separator: char): string
    requires segments != []
  {
    if |segments| == 1 then segments[0] else segments[0] + [separator] + Join(segments[1..], separator)
  }

  lemma {:induction false} SplitJoins(s: string, separator: char)
    ensures Split(s, separator) != [] && Join(Split(s, separator), separator) == s
  {
    if s != "" {
      SplitJoins(s[1..], separator);
      var rest := Split(s[1..], separator);
      if s[0] == separator {
        assert ([""] + rest)[1..] == rest;
        assert "" + [separator] + s[1..] == s;
      } else {
        var all := [[s[0]] + rest[0]] + rest[1..];
        assert all[1..] == rest[1..];
        assert Join(all, separator) == [s[0]] + Join(rest, separator);
      }
    }
  }

  /** A valid scope survives its own key. */
  lemma KeyRoundTrip(scope: Scope)
    requires ValidScope(scope)
    ensures Parse(Key(scope)) == Ok(scope)
  {
    SplitPair(scope.tenant, scope.space, AGENT_SCOPE_SEPARATOR);
  }

  /** Parsing accepts exactly the keys of valid scopes. */
  lemma ParseAcceptsKeys(key: string, scope: Scope)
    ensures Parse(key) == Ok(scope) <==> ValidScope(scope) && key == Key(scope)
  {
    if Parse(key) == Ok(scope) {
      SplitJoins(key, AGENT_SCOPE_SEPARATOR);
      var segments := Split(key, AGENT_SCOPE_SEPARATOR);
      assert segments[1..] == [segments[1]];
    }
    if ValidScope(scope) && key == Key(scope) {
      KeyRoundTrip(scope);
    }
  }

  /** Distinct valid scopes have distinct keys. */
  lemma KeyInjective(a: Scope, b: Scope)
    requires ValidScope(a) && ValidScope(b) && Key(a) == Key(b)
    ensures a == b
  {
    KeyRoundTrip(a);
    KeyRoundTrip(b);
  }
}
