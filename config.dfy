/**
 * The exporter's configuration (pkg/core/config.go:29-84): environment
 * variables read into a `Config`, the Neutron release mapped to the name of
 * the project ID column, and the rewriting of `project_id` in a query.
 *
 * The environment is a parameter (a map from variable name to value, where a
 * missing variable reads as empty, like `os.Getenv`). A fatal log in the
 * source is a `Failure` here.
 */
module Config {
  import opened Wrappers

  // ---------------------------------------------------------------------
  // Decimal numbers, as `strconv.ParseUint(s, 10, 64)` reads them

  const MaxUint64: nat := 0xFFFF_FFFF_FFFF_FFFF

  predicate IsDigit(c: char) {
    '0' <= c <= '9'
  }

  function DigitValue(c: char): nat
    requires IsDigit(c)
  {
    (c as int - '0' as int) as nat
  }

  function Digit(d: nat): (c: char)
    requires d < 10
    ensures IsDigit(c) && DigitValue(c) == d
  {
    (('0' as int) + d) as char
  }

  predicate AllDigits(s: string) {
    forall i :: 0 <= i < |s| ==> IsDigit(s[i])
  }

  /** The value of a string of decimal digits, most significant first. */
  function DecimalValue(s: string): nat
    requires AllDigits(s)
  {
    if s == [] then 0 else DecimalValue(s[..|s| - 1]) * 10 + DigitValue(s[|s| - 1])
  }

  /**
   * `strconv.ParseUint(s, 10, 64)`: one or more decimal digits (no sign, no
   * underscores) whose value fits in 64 bits; anything else is an error.
   */
  function ParseUint64(s: string): (r: Option<nat>)
    ensures r.Some? ==> r.value <= MaxUint64
  {
    if s != [] && AllDigits(s) && DecimalValue(s) <= MaxUint64 then Some(DecimalValue(s)) else None
  }

  /** The decimal text of a number, without leading zeros. */
  function FormatDecimal(n: nat): (s: string)
    ensures s != [] && AllDigits(s)
  {
    if n < 10 then [Digit(n)] else FormatDecimal(n / 10) + [Digit(n % 10)]
  }

  lemma {:induction false} DecimalValueOfFormat(n: nat)
    ensures DecimalValue(FormatDecimal(n)) == n
  {
    if n >= 10 {
      DecimalValueOfFormat(n / 10);
      var s := FormatDecimal(n);
      assert s[..|s| - 1] == FormatDecimal(n / 10);
    }
  }

  /** Parsing the decimal text of a number gives it back exactly when it fits in 64 bits. */
  lemma ParseFormatRoundTrip(n: nat)
    ensures ParseUint64(FormatDecimal(n)) == if n <= MaxUint64 then Some(n) else None
  {
    DecimalValueOfFormat(n);
  }

  // ---------------------------------------------------------------------
  // Reading the environment

  type Environment = map<string, string>

  /** `os.Getenv`: a missing variable reads as the empty string. */
  function Getenv(env: Environment, key: string): string {
    if key in env then env[key] else ""
  }

  datatype Config = Config(
    postgresURI: string,
    listenAddress: string,
    scoreLogLimit: nat,
    projectIDColumnName: string)

  /** The fatal errors of `ReadConfigFromEnv`. */
  datatype ConfigError =
    | MissingVariable(key: string)
    | InvalidScoreLogLimit(value: string)
    | UnknownNeutronRelease(release: string)

  const DefaultScoreLogLimit: nat := 50

  /** The project ID column of a Neutron release's schema (config.go:67-74). */
  function ColumnForRelease(release: string): (r: Option<string>)
    ensures r.Some? <==> release in {"kilo", "liberty", "mitaka", "newton", "ocata", "pike", "queens"}
    ensures r.Some? ==> (r.value == "tenant_id" <==> release in {"kilo", "liberty", "mitaka"})
    ensures r.Some? ==> r.value in {"tenant_id", "project_id"}
  {
    match release
    case "kilo" => Some("tenant_id")
    case "liberty" => Some("tenant_id")
    case "mitaka" => Some("tenant_id")
    case "newton" => Some("project_id")
    case "ocata" => Some("project_id")
    case "pike" => Some("project_id")
    case "queens" => Some("project_id")
    case _ => None
  }

  /** `ReadConfigFromEnv` (config.go:54-77). */
  method ReadConfigFromEnv(env: Environment) returns (r: Result<Config, ConfigError>)
    ensures Getenv(env, "POSTGRES_URI") == "" ==> r == Failure(MissingVariable("POSTGRES_URI"))
    ensures Getenv(env, "POSTGRES_URI") != "" && Getenv(env, "LISTEN_ADDRESS") == "" ==>
      r == Failure(MissingVariable("LISTEN_ADDRESS"))
    ensures r.Success? <==>
      Getenv(env, "POSTGRES_URI") != "" && Getenv(env, "LISTEN_ADDRESS") != "" &&
      (Getenv(env, "SCORE_LOG_LIMIT") == "" || ParseUint64(Getenv(env, "SCORE_LOG_LIMIT")).Some?) &&
      ColumnForRelease(Getenv(env, "NEUTRON_RELEASE")).Some?
    ensures r.Success? ==>
      r.value.postgresURI == Getenv(env, "POSTGRES_URI") &&
      r.value.listenAddress == Getenv(env, "LISTEN_ADDRESS") &&
      r.value.scoreLogLimit == (if Getenv(env, "SCORE_LOG_LIMIT") == "" then DefaultScoreLogLimit
                                else ParseUint64(Getenv(env, "SCORE_LOG_LIMIT")).value) &&
      Some(r.value.projectIDColumnName) == ColumnForRelease(Getenv(env, "NEUTRON_RELEASE"))
    ensures (Getenv(env, "POSTGRES_URI") != "" && Getenv(env, "LISTEN_ADDRESS") != "" &&
             Getenv(env, "SCORE_LOG_LIMIT") != "" && ParseUint64(Getenv(env, "SCORE_LOG_LIMIT")).None?) ==>
      r == Failure(InvalidScoreLogLimit(Getenv(env, "SCORE_LOG_LIMIT")))
    ensures (Getenv(env, "POSTGRES_URI") != "" && Getenv(env, "LISTEN_ADDRESS") != "" &&
             (Getenv(env, "SCORE_LOG_LIMIT") == "" || ParseUint64(Getenv(env, "SCORE_LOG_LIMIT")).Some?)) ==>
      (Getenv(env, "NEUTRON_RELEASE") == "" ==> r == Failure(MissingVariable("NEUTRON_RELEASE"))) &&
      (Getenv(env, "NEUTRON_RELEASE") != "" && ColumnForRelease(Getenv(env, "NEUTRON_RELEASE")).None? ==>
         r == Failure(UnknownNeutronRelease(Getenv(env, "NEUTRON_RELEASE"))))
  {
    var postgresURI := Getenv(env, "POSTGRES_URI");
    if postgresURI == "" {
      return Failure(MissingVariable("POSTGRES_URI"));
    }
    var listenAddress := Getenv(env, "LISTEN_ADDRESS");
    if listenAddress == "" {
      return Failure(MissingVariable("LISTEN_ADDRESS"));
    }
    var cfg := Config(postgresURI, listenAddress, DefaultScoreLogLimit, "");
    var str := Getenv(env, "SCORE_LOG_LIMIT");
    if str != "" {
      var parsed := ParseUint64(str);
      if parsed.None? {
        return Failure(InvalidScoreLogLimit(str));
      }
      cfg := cfg.(scoreLogLimit := parsed.value);
    }
    var release := Getenv(env, "NEUTRON_RELEASE");
    if release == "" {
      return Failure(MissingVariable("NEUTRON_RELEASE"));
    }
    if release == "kilo" || release == "liberty" || release == "mitaka" {
      cfg := cfg.(projectIDColumnName := "tenant_id");
    } else if release == "newton" || release == "ocata" || release == "pike" || release == "queens" {
      cfg := cfg.(projectIDColumnName := "project_id");
    } else {
      return Failure(UnknownNeutronRelease(release));
    }
    return Success(cfg);
  }

  // ---------------------------------------------------------------------
  // Rewriting `\bproject_id\b` (config.go:79-84)

  const Needle: string := "project_id"

  /** A character of the class `\w` in Go's regular expressions: ASCII letters, digits and `_`. */
  predicate IsWordChar(c: char) {
    'a' <= c <= 'z' || 'A' <= c <= 'Z' || '0' <= c <= '9' || c == '_'
  }

  /**
   * `project_id` starts at `i` with a word boundary before and after it. A
   * match is a run of word characters starting with `p`.
   */
  predicate MatchAt(s: string, i: nat)
    ensures MatchAt(s, i) ==>
      i + |Needle| <= |s| && s[i] == 'p' && forall k :: i <= k < i + |Needle| ==> IsWordChar(s[k])
  {
    i + |Needle| <= |s| && s[i..i + |Needle|] == Needle &&
    (i == 0 || !IsWordChar(s[i - 1])) &&
    (i + |Needle| == |s| || !IsWordChar(s[i + |Needle|]))
  }

  /** The rewritten text of `s[i..]`, each match judged against the whole of `s`. */
  function RewriteFrom(s: string, column: string, i: nat): string
    requires i <= |s|
    decreases |s| - i
  {
    if i == |s| then []
    else if MatchAt(s, i) then column + RewriteFrom(s, column, i + |Needle|)
    else [s[i]] + RewriteFrom(s, column, i + 1)
  }

  /**
   * `Config.applyTo`: every whole-word `project_id`, leftmost first, replaced
   * by `column`. A query without a whole-word `project_id` is returned as it
   * is, and so is every query when the column is `project_id` itself (the
   * newer releases).
   */
  function ApplyTo(column: string, query: string): (r: string)
    ensures (forall j :: 0 <= j < |query| ==> !MatchAt(query, j)) ==> r == query
    ensures column == Needle ==> r == query
  {
    RewriteWithoutMatch(query, column, 0);
    RewriteWithNeedle(query, 0);
    assert query[0..] == query;
    RewriteFrom(query, column, 0)
  }

  /** Without a whole-word occurrence, the rest of the query is copied unchanged. */
  lemma {:induction false} RewriteWithoutMatch(s: string, column: string, i: nat)
    requires i <= |s|
    ensures (forall j :: i <= j < |s| ==> !MatchAt(s, j)) ==> RewriteFrom(s, column, i) == s[i..]
    decreases |s| - i
  {
    if i < |s| && forall j :: i <= j < |s| ==> !MatchAt(s, j) {
      RewriteWithoutMatch(s, column, i + 1);
      assert s[i..] == [s[i]] + s[i + 1..];
    }
  }

  lemma {:induction false} RewriteWithNeedle(s: string, i: nat)
    requires i <= |s|
    ensures RewriteFrom(s, Needle, i) == s[i..]
    decreases |s| - i
  {
    if i < |s| {
      if MatchAt(s, i) {
        RewriteWithNeedle(s, i + |Needle|);
        assert s[i..] == s[i..i + |Needle|] + s[i + |Needle|..];
      } else {
        RewriteWithNeedle(s, i + 1);
        assert s[i..] == [s[i]] + s[i + 1..];
      }
    }
  }

  /** A query that is the bare word is replaced whole. */
  lemma ApplyToBareWord(column: string)
    ensures ApplyTo(column, Needle) == column
  {
    assert MatchAt(Needle, 0);
    assert RewriteFrom(Needle, column, |Needle|) == [];
    assert column + [] == column;
  }

  /** `project_id` inside a longer identifier, as in `project_ids` or `my_project_id`, is not a match. */
  lemma EmbeddedIsNoMatch(s: string, i: nat)
    requires i + |Needle| <= |s| && s[i..i + |Needle|] == Needle
    requires (i > 0 && IsWordChar(s[i - 1])) || (i + |Needle| < |s| && IsWordChar(s[i + |Needle|]))
    ensures !MatchAt(s, i)
  {
  }

  /** `project_ids` is left as it is: the trailing `s` is a word character. */
  lemma ApplyToTrailingWordChar(column: string)
    ensures ApplyTo(column, "project_ids") == "project_ids"
  {
    var s := "project_ids";
    forall j | 0 <= j < |s| ensures !MatchAt(s, j) {
      if j == 0 {
        EmbeddedIsNoMatch(s, 0);
      }
    }
  }

  /** `my_project_id` is left as it is: the `_` before it is a word character. */
  lemma ApplyToLeadingWordChar(column: string)
    ensures ApplyTo(column, "my_project_id") == "my_project_id"
  {
    var s := "my_project_id";
    forall j | 0 <= j < |s| ensures !MatchAt(s, j) {
      if j == 3 {
        EmbeddedIsNoMatch(s, 3);
      }
    }
  }

  /** `project_id` is made of word characters only. */
  lemma NeedleIsWord()
    ensures forall k :: 0 <= k < |Needle| ==> IsWordChar(Needle[k])
  {
  }

  /** Left of a non-word character, matches are those of the left part alone. */
  lemma MatchLeft(a: string, x: char, b: string, j: nat)
    requires !IsWordChar(x) && j < |a|
    ensures MatchAt(a + [x] + b, j) <==> MatchAt(a, j)
  {
    var s := a + [x] + b;
    NeedleIsWord();
    if j + |Needle| > |a| && j + |Needle| <= |s| {
      assert s[j..j + |Needle|][|a| - j] == x;
    }
    if j + |Needle| <= |a| {
      assert s[j..j + |Needle|] == a[j..j + |Needle|];
    }
  }

  /** Right of a non-word character, matches are those of the right part alone. */
  lemma MatchRight(a: string, x: char, b: string, k: nat)
    requires !IsWordChar(x) && k < |b|
    ensures MatchAt(a + [x] + b, |a| + 1 + k) <==> MatchAt(b, k)
  {
    var s := a + [x] + b;
    var j := |a| + 1 + k;
    if j + |Needle| <= |s| {
      assert s[j..j + |Needle|] == b[k..k + |Needle|];
    }
    if k > 0 {
      assert s[j - 1] == b[k - 1];
    } else {
      assert s[j - 1] == x;
    }
  }

  lemma {:induction false} RewriteRight(a: string, x: char, b: string, column: string, k: nat)
    requires !IsWordChar(x) && k <= |b|
    ensures RewriteFrom(a + [x] + b, column, |a| + 1 + k) == RewriteFrom(b, column, k)
    decreases |b| - k
  {
    var s := a + [x] + b;
    if k < |b| {
      MatchRight(a, x, b, k);
      assert s[|a| + 1 + k] == b[k];
      if MatchAt(b, k) {
        RewriteRight(a, x, b, column, k + |Needle|);
      } else {
        RewriteRight(a, x, b, column, k + 1);
      }
    }
  }

  lemma {:induction false} RewriteLeft(a: string, x: char, b: string, column: string, i: nat)
    requires !IsWordChar(x) && i <= |a|
    ensures RewriteFrom(a + [x] + b, column, i) == RewriteFrom(a, column, i) + [x] + RewriteFrom(b, column, 0)
    decreases |a| - i
  {
    var s := a + [x] + b;
    if i == |a| {
      assert s[|a|] == x;
      assert !MatchAt(s, |a|) by {
        if |a| + |Needle| <= |s| {
          assert s[|a|..|a| + |Needle|][0] == x;
          NeedleIsWord();
        }
      }
      RewriteRight(a, x, b, column, 0);
    } else {
      MatchLeft(a, x, b, i);
      assert s[i] == a[i];
      if MatchAt(a, i) {
        RewriteLeft(a, x, b, column, i + |Needle|);
      } else {
        RewriteLeft(a, x, b, column, i + 1);
      }
    }
  }

  /** The rewrite works word by word: splitting the query at a non-word character commutes with it. */
  lemma ApplyToSplits(column: string, a: string, x: char, b: string)
    requires !IsWordChar(x)
    ensures ApplyTo(column, a + [x] + b) == ApplyTo(column, a) + [x] + ApplyTo(column, b)
  {
    RewriteLeft(a, x, b, column, 0);
  }
}
