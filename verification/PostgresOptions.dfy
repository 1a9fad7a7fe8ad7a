/** The configuration of the PostgreSQL store (wfe-postgres/src/lib.rs): the names its migrations use
    and the validation that makes a table prefix safe to put in front of each of them. */
module PostgresOptions {
  import opened Prelude
  import opened SqlRewrite
  import opened SqlTexts

  const MAX_IDENTIFIER_LEN: nat := 63

  const PREFIXABLE_IDENTIFIERS: seq<string> := [
    "workflows",
    "definition_sequences",
    "execution_pointers",
    "events",
    "event_subscriptions",
    "execution_errors",
    "scheduled_commands",
    "idx_workflows_next_execution",
    "idx_workflows_status",
    "idx_events_name_key",
    "idx_events_is_processed",
    "idx_events_event_time",
    "idx_subscriptions_name_key",
    "idx_subscriptions_workflow",
    "idx_scheduled_commands_execute_time"
  ]

  datatype Options = Options(schema: string, tablePrefix: string)

  datatype OptionsError = InvalidSchema | SchemaTooLong | InvalidPrefix | PrefixTooLong

  function MaxLen(xs: seq<string>): (r: nat)
    ensures forall x :: x in xs ==> |x| <= r
    ensures xs != [] ==> exists x :: x in xs && |x| == r
  {
    if xs == [] then 0
    else
      var m := MaxLen(xs[1..]);
      if |xs| == 1 || |xs[0]| > m then assert xs[0] in xs; |xs[0]| else m
  }

  function Validate(o: Options): Result<(), OptionsError> {
    if !IsIdentifier(o.schema) then Err(InvalidSchema)
    else if |o.schema| > MAX_IDENTIFIER_LEN then Err(SchemaTooLong)
    else if !ValidPrefix(o.tablePrefix) then Err(InvalidPrefix)
    else if |o.tablePrefix| + MaxLen(PREFIXABLE_IDENTIFIERS) > MAX_IDENTIFIER_LEN then Err(PrefixTooLong)
    else Ok(())
  }

  /** A name of letters, digits and underscores that does not start with a digit. */
  ghost predicate IsName(x: string) {
    x != [] && !('0' <= x[0] <= '9') && forall i :: 0 <= i < |x| ==> IsWordCharacter(x[i])
  }

  /** Options are accepted exactly when the schema and every prefixed name are names of at most 63 characters, which
      PostgreSQL keeps whole. */
  lemma {:induction false} ValidateExact(o: Options)
    ensures Validate(o).Ok? <==>
      && IsName(o.schema) && |o.schema| <= 63
      && (o.tablePrefix == [] || IsName(o.tablePrefix))
      && forall x :: x in PREFIXABLE_IDENTIFIERS ==> |o.tablePrefix + x| <= 63
  {
    NameMeans(o.schema);
    NameMeans(o.tablePrefix);
    PrefixFits(o.tablePrefix, PREFIXABLE_IDENTIFIERS, MAX_IDENTIFIER_LEN);
  }

  lemma {:induction false} PrefixFits(prefix: string, names: seq<string>, limit: nat)
    requires names != []
    ensures |prefix| + MaxLen(names) <= limit <==> forall x :: x in names ==> |prefix + x| <= limit
  {
    var most := MaxLen(names);
    var longest :| longest in names && |longest| == most;
    assert |prefix + longest| == |prefix| + |longest|;
  }

  lemma {:induction false} NameMeans(x: string)
    ensures IsName(x) <==> IsIdentifier(x)
  {
    assert forall c :: IsWordCharacter(c) <==> IsIdentPart(c);
  }

  /** The letter at distance k from the end; a blank beyond the start. */
  function FromEnd(x: string, k: nat): char {
    if 1 <= k <= |x| then x[|x| - k] else ' '
  }

  /** Which listed name a text can be, judged by letters counted from its end: the second and third,
      and the sixth or the eleventh where those leave two candidates. */
  function IndexByTail(x: string): nat {
    var b, c := FromEnd(x, 2), FromEnd(x, 3);
    if c == 'o' && b == 'w' then 0
    else if c == 'c' then 1
    else if c == 'e' && b == 'r' then 2
    else if c == 'n' && b == 't' then 3
    else if c == 'o' && b == 'n' then 4
    else if c == 'o' && b == 'r' then 5
    else if c == 'n' then 6
    else if b == 'o' && c == 'i' then 7
    else if c == 't' then 8
    else if c == 'k' then (if FromEnd(x, 11) == 't' then 9 else 12)
    else if c == 's' then 10
    else if c == 'l' then 13
    else (if FromEnd(x, 6) == 't' then 11 else 14)
  }

  ghost predicate FoundByTail(names: seq<string>, i: nat)
    requires i < |names|
  {
    IndexByTail(names[i]) == i && |names[i]| >= 6 && (|names[i]| < 11 ==> i == 0 || i == 3)
  }

  lemma {:induction false} ListedNamesFoundByTail(i: nat)
    requires i < |PREFIXABLE_IDENTIFIERS|
    ensures FoundByTail(PREFIXABLE_IDENTIFIERS, i)
  {
  }

  lemma {:induction false} TailsTellApart(names: seq<string>, i: nat, j: nat)
    requires i < |names| && j < |names| && FoundByTail(names, i) && FoundByTail(names, j)
    requires forall k :: 1 <= k <= |names[i]| ==> FromEnd(names[i], k) == FromEnd(names[j], k)
    ensures i == j
  {
  }

  /** The shipped list meets the condition under which a second rewriting pass is harmless. */
  lemma {:induction false} ListedNamesSuffixFree()
    ensures SuffixFree(PREFIXABLE_IDENTIFIERS)
  {
    forall i: nat | i < |PREFIXABLE_IDENTIFIERS| ensures FoundByTail(PREFIXABLE_IDENTIFIERS, i) {
      ListedNamesFoundByTail(i);
    }
    FoundByTailSuffixFree(PREFIXABLE_IDENTIFIERS);
  }

  lemma {:induction false} FoundByTailSuffixFree(names: seq<string>)
    requires forall i: nat :: i < |names| ==> FoundByTail(names, i)
    ensures SuffixFree(names)
  {
    forall p: string, x: string | x in names && p != []
      ensures p + x !in names
    {
      if p + x in names {
        var i: nat :| i < |names| && names[i] == x;
        var j: nat :| j < |names| && names[j] == p + x;
        assert forall k :: 1 <= k <= |x| ==> FromEnd(p + x, k) == FromEnd(x, k);
        TailsTellApart(names, i, j);
      }
    }
  }

  /** Hence, for every non-empty prefix that validation can accept and every migration text, prefixing twice is
      prefixing once. */
  lemma {:induction false} RewritingIsIdempotent(sql: string, prefix: string)
    requires IsIdentifier(prefix)
    ensures var once := Substituted(sql, prefix, PREFIXABLE_IDENTIFIERS);
            Substituted(once, prefix, PREFIXABLE_IDENTIFIERS) == once
  {
    ListedNamesSuffixFree();
    SecondPassChangesNothing(sql, prefix, PREFIXABLE_IDENTIFIERS);
  }
}
