/**
 * The computed settings helpers: the list of allowed CORS origins parsed
 * from the comma-separated setting, the production flag, and the two
 * validators that normalise the case of the log level and the environment
 * name or reject them. Loading the settings from the environment and the
 * file-system side effects of the other validators are not modelled.
 */
module Config {
  import opened Common

  /** The default setting, written in pieces at its commas. */
  const DEFAULT_ALLOWED_ORIGINS: string :=
    "http://localhost:3000" + "," + "http://localhost:5173" + "," + "http://localhost:8000" + "," + "http://127.0.0.1:8000"

  const DEFAULT_LOG_LEVEL: string := "INFO"
  const DEFAULT_APP_ENV: string := "development"

  const LOG_LEVELS: set<string> := {"DEBUG", "INFO", "WARNING", "ERROR", "CRITICAL"}
  const APP_ENVS: set<string> := {"development", "staging", "production"}

  /** A usable origin: non-empty, without surrounding white space and without a comma. */
  predicate CleanOrigin(o: string)
  {
    Unpadded(o) && ',' !in o
  }

  /** Non-empty, and neither the first nor the last character is white space. */
  predicate Unpadded(o: string)
  {
    o != [] && !IsSpace(o[0]) && !IsSpace(o[|o| - 1])
  }

  /** Each piece stripped, the pieces that strip to nothing dropped, order kept. */
  function StripNonEmpty(pieces: seq<string>): (r: seq<string>)
    ensures |r| <= |pieces|
    ensures forall i :: 0 <= i < |r| ==> Unpadded(r[i])
  {
    if pieces == [] then []
    else
      var o := Strip(pieces[0]);
      var rest := StripNonEmpty(pieces[1..]);
      if o != [] then
        assert Unpadded(o);
        assert forall i :: 1 <= i < |rest| + 1 ==> ([o] + rest)[i] == rest[i - 1];
        [o] + rest
      else rest
  }

  /** Each piece stripped, empty results included. */
  function StripEach(pieces: seq<string>): (r: seq<string>)
    ensures |r| == |pieces| && forall i :: 0 <= i < |pieces| ==> r[i] == Strip(pieces[i])
  {
    seq(|pieces|, i requires 0 <= i < |pieces| => Strip(pieces[i]))
  }

  /** The positions, from `lo` on, of the non-empty strings, in increasing order. */
  function NonEmptyFrom(s: seq<string>, lo: nat): (r: seq<nat>)
    requires lo <= |s|
    ensures forall k :: 0 <= k < |r| ==> lo <= r[k] < |s| && s[r[k]] != []
    ensures forall k, l :: 0 <= k < l < |r| ==> r[k] < r[l]
    ensures forall i :: lo <= i < |s| && s[i] != [] ==> i in r
    decreases |s| - lo
  {
    if lo == |s| then []
    else
      var rest := NonEmptyFrom(s, lo + 1);
      if s[lo] != [] then [lo] + rest else rest
  }

  /** The positions of the pieces that do not strip to nothing: the ones `StripNonEmpty` keeps. */
  function Kept(pieces: seq<string>): seq<nat>
  {
    NonEmptyFrom(StripEach(pieces), 0)
  }

  /** The non-empty strings, order kept. */
  function NonEmptyOnly(st: seq<string>): seq<string>
  {
    if st == [] then []
    else if st[0] != [] then [st[0]] + NonEmptyOnly(st[1..])
    else NonEmptyOnly(st[1..])
  }

  lemma {:induction false} StripNonEmptyIsFilter(pieces: seq<string>)
    ensures StripNonEmpty(pieces) == NonEmptyOnly(StripEach(pieces))
  {
    if pieces != [] {
      StripNonEmptyIsFilter(pieces[1..]);
      assert StripEach(pieces)[1..] == StripEach(pieces[1..]);
    }
  }

  lemma {:induction false} NonEmptyOnlyFrom(st: seq<string>, lo: nat)
    requires lo <= |st|
    ensures var r := NonEmptyOnly(st[lo..]);
            var kept := NonEmptyFrom(st, lo);
            |r| == |kept| && forall k :: 0 <= k < |r| ==> r[k] == st[kept[k]]
    decreases |st| - lo
  {
    if lo < |st| {
      NonEmptyOnlyFrom(st, lo + 1);
      var tail := st[lo..];
      assert tail[1..] == st[lo + 1..] && tail[0] == st[lo];
      var rest := NonEmptyOnly(st[lo + 1..]);
      var keptRest := NonEmptyFrom(st, lo + 1);
      if st[lo] != [] {
        assert NonEmptyOnly(tail) == [st[lo]] + rest;
        assert NonEmptyFrom(st, lo) == [lo] + keptRest;
      } else {
        assert NonEmptyOnly(tail) == rest;
        assert NonEmptyFrom(st, lo) == keptRest;
      }
    }
  }

  /**
   * `StripNonEmpty` is exactly the stripped pieces that are not empty, in
   * their original order: its k-th element is the stripped piece at the k-th
   * kept position, and every piece that strips to something is kept.
   */
  lemma StripNonEmptyExact(pieces: seq<string>)
    ensures var r := StripNonEmpty(pieces);
            |r| == |Kept(pieces)| && forall k :: 0 <= k < |r| ==> r[k] == Strip(pieces[Kept(pieces)[k]])
    ensures forall i :: 0 <= i < |pieces| && Strip(pieces[i]) != [] ==> Strip(pieces[i]) in StripNonEmpty(pieces)
  {
    StripNonEmptyIsFilter(pieces);
    NonEmptyOnlyFrom(StripEach(pieces), 0);
    assert StripEach(pieces)[0..] == StripEach(pieces);
    var r := StripNonEmpty(pieces);
    var kept := Kept(pieces);
    forall i | 0 <= i < |pieces| && Strip(pieces[i]) != []
      ensures Strip(pieces[i]) in r
    {
      assert StripEach(pieces)[i] != [];
      var k :| 0 <= k < |kept| && kept[k] == i;
      assert r[k] == Strip(pieces[i]);
    }
  }

  /** Stripping never brings back a separator: a piece without one stays without one. */
  lemma {:induction false} StripNonEmptyKeepsCommaFree(pieces: seq<string>)
    requires forall i :: 0 <= i < |pieces| ==> ',' !in pieces[i]
    ensures forall i :: 0 <= i < |StripNonEmpty(pieces)| ==> ',' !in StripNonEmpty(pieces)[i]
  {
    if pieces != [] {
      StripNonEmptyKeepsCommaFree(pieces[1..]);
      StripInside(pieces[0]);
    }
  }

  /** The stripped text is a slice of the original. */
  lemma StripInside(s: string)
    ensures forall c :: c in Strip(s) ==> c in s
  {
    var l := TrimLeft(s);
    assert l == s[|s| - |l|..];
    assert TrimRight(l) == l[..|TrimRight(l)|];
  }

  /** `cors_origins`: split on commas, strip each piece, drop the empty ones. */
  function CorsOrigins(allowedOrigins: string): (r: seq<string>)
    ensures forall i :: 0 <= i < |r| ==> CleanOrigin(r[i])
  {
    SplitPiecesFree(allowedOrigins, ',');
    StripNonEmptyKeepsCommaFree(Split(allowedOrigins, ','));
    StripNonEmpty(Split(allowedOrigins, ','))
  }

  /**
   * The origins are exactly the comma-separated pieces of the setting,
   * stripped, with the pieces that strip to nothing dropped, in order.
   */
  lemma CorsOriginsExact(allowedOrigins: string)
    ensures var pieces := Split(allowedOrigins, ',');
            var r := CorsOrigins(allowedOrigins);
            |r| == |Kept(pieces)| && forall k :: 0 <= k < |r| ==> r[k] == Strip(pieces[Kept(pieces)[k]])
    ensures var pieces := Split(allowedOrigins, ',');
            forall i :: 0 <= i < |pieces| && Strip(pieces[i]) != [] ==> Strip(pieces[i]) in CorsOrigins(allowedOrigins)
  {
    StripNonEmptyExact(Split(allowedOrigins, ','));
  }

  /** Clean pieces pass through the strip-and-drop step unchanged. */
  lemma {:induction false} StripNonEmptyOfClean(origins: seq<string>)
    requires forall i :: 0 <= i < |origins| ==> CleanOrigin(origins[i])
    ensures StripNonEmpty(origins) == origins
  {
    if origins != [] {
      StripUnpadded(origins[0]);
      StripNonEmptyOfClean(origins[1..]);
    }
  }

  /** Splitting the comma-joined pieces gives the pieces back when none holds a comma. */
  lemma {:induction false} SplitJoin(origins: seq<string>)
    requires origins != []
    requires forall i :: 0 <= i < |origins| ==> ',' !in origins[i]
    ensures Split(Join(origins, ','), ',') == origins
  {
    if |origins| == 1 {
      SplitNoSep(origins[0], ',');
    } else {
      SplitJoin(origins[1..]);
      SplitAt(origins[0], ',', Join(origins[1..], ','));
    }
  }

  /** Joining clean origins with commas and parsing the result gives the same origins back. */
  lemma CorsOriginsRoundTrip(origins: seq<string>)
    requires origins != []
    requires forall i :: 0 <= i < |origins| ==> CleanOrigin(origins[i])
    ensures CorsOrigins(Join(origins, ',')) == origins
  {
    SplitJoin(origins);
    StripNonEmptyOfClean(origins);
  }

  /** The default setting allows exactly the four local development origins. */
  lemma DefaultOrigins()
    ensures CorsOrigins(DEFAULT_ALLOWED_ORIGINS)
            == ["http://localhost:3000", "http://localhost:5173", "http://localhost:8000", "http://127.0.0.1:8000"]
  {
    var origins := ["http://localhost:3000", "http://localhost:5173", "http://localhost:8000", "http://127.0.0.1:8000"];
    DefaultOriginsJoined(origins);
    DefaultOriginsClean(origins);
    CorsOriginsRoundTrip(origins);
  }

  lemma DefaultOriginsJoined(origins: seq<string>)
    requires origins == ["http://localhost:3000", "http://localhost:5173", "http://localhost:8000", "http://127.0.0.1:8000"]
    ensures Join(origins, ',') == DEFAULT_ALLOWED_ORIGINS
  {
    assert Join(origins[2..], ',') == origins[2] + [','] + origins[3];
    assert Join(origins[1..], ',') == origins[1] + [','] + Join(origins[2..], ',');
    assert Join(origins, ',') == origins[0] + [','] + Join(origins[1..], ',');
  }

  lemma DefaultOriginsClean(origins: seq<string>)
    requires origins == ["http://localhost:3000", "http://localhost:5173", "http://localhost:8000", "http://127.0.0.1:8000"]
    ensures forall i :: 0 <= i < |origins| ==> CleanOrigin(origins[i])
  {
    assert CleanOrigin(origins[0]) && CleanOrigin(origins[1]);
    assert CleanOrigin(origins[2]) && CleanOrigin(origins[3]);
  }

  /** `is_production`: the environment name, lower-cased, is "production". */
  function IsProduction(appEnv: string): (b: bool)
    ensures b <==> Lower(appEnv) == "production"
  {
    Lower(appEnv) == "production"
  }

  /** `validate_log_level`: the upper-cased level if it is one of the five, otherwise an error. */
  function ValidateLogLevel(v: string): (r: Result<string, string>)
    ensures r.Ok? <==> Upper(v) in LOG_LEVELS
    ensures r.Ok? ==> r.value == Upper(v) && r.value in LOG_LEVELS
  {
    if Upper(v) in LOG_LEVELS then Ok(Upper(v))
    else Err("log_level must be one of {DEBUG, INFO, WARNING, ERROR, CRITICAL}")
  }

  /** `validate_app_env`: the lower-cased name if it is one of the three, otherwise an error. */
  function ValidateAppEnv(v: string): (r: Result<string, string>)
    ensures r.Ok? <==> Lower(v) in APP_ENVS
    ensures r.Ok? ==> r.value == Lower(v) && r.value in APP_ENVS
  {
    if Lower(v) in APP_ENVS then Ok(Lower(v))
    else Err("app_env must be one of {development, staging, production}")
  }

  /** Validating an already validated level changes nothing, and the case of the input never matters. */
  lemma LogLevelNormalised(v: string)
    ensures ValidateLogLevel(v).Ok? ==> ValidateLogLevel(ValidateLogLevel(v).value) == ValidateLogLevel(v)
    ensures ValidateLogLevel(Lower(v)) == ValidateLogLevel(v)
  {
    UpperIdempotent(v);
    UpperOfLower(v);
  }

  /** The same for the environment name. */
  lemma AppEnvNormalised(v: string)
    ensures ValidateAppEnv(v).Ok? ==> ValidateAppEnv(ValidateAppEnv(v).value) == ValidateAppEnv(v)
    ensures ValidateAppEnv(Upper(v)) == ValidateAppEnv(v)
  {
    LowerIdempotent(v);
    LowerOfUpper(v);
  }

  /** A production flag implies the environment validates, as "production". */
  lemma ProductionIsValidEnv(v: string)
    ensures IsProduction(v) <==> ValidateAppEnv(v) == Ok("production")
  {
  }

  /** The defaults pass their validators, and the default environment is not production. */
  lemma DefaultsValid()
    ensures ValidateLogLevel(DEFAULT_LOG_LEVEL) == Ok("INFO")
    ensures ValidateAppEnv(DEFAULT_APP_ENV) == Ok("development")
    ensures !IsProduction(DEFAULT_APP_ENV)
  {
    UpperOfUppercase("INFO");
    LowerOfLowercase("development");
  }
}
