/** The knowledge migration run at start-up (`check_and_run_migration`).

    The `.version` marker is `None` when the file does not exist and its
    text otherwise; a marker that exists but cannot be read reads as the
    empty text. The gem store's `list` and `get`, the knowledge store's
    `migrate_all` and the marker write are parameters. */
module Migration {
  import opened Wrappers
  import opened Text
  import opened Gems

  /** `CURRENT_KNOWLEDGE_VERSION` of the local knowledge store. */
  const CURRENT_KNOWLEDGE_VERSION: nat := 1

  const U32_LIMIT: nat := 0x1_0000_0000

  /** How many gems the migration asks the store to list. */
  const LIST_LIMIT: nat := 10000

  /** The version a marker text records: its trimmed text as a `u32`, or 0
      when that does not parse. */
  function StoredVersion(text: string): (v: nat)
    ensures v < U32_LIMIT
    ensures AllDigits(text) && text != [] && DigitsValue(text) < U32_LIMIT ==> v == DigitsValue(text)
  {
    TrimDigits(text);
    match ParseUnsigned(Trim(text), U32_LIMIT)
    case Some(v) => v
    case None => 0
  }

  /** Digits carry no whitespace, so trimming leaves them alone. */
  lemma {:induction false} TrimDigits(text: string)
    ensures AllDigits(text) ==> Trim(text) == text
  {
    if AllDigits(text) && text != [] {
      TrimIdentity(text);
    }
  }

  /** Whether the gems must be (re)assembled: the marker is missing, or it
      does not record a version at least the current one. */
  function NeedsMigration(marker: Option<string>): (r: bool)
    ensures r <==> marker.None? || ParseUnsigned(Trim(marker.value), U32_LIMIT) in {None, Some(0)}
  {
    match marker
    case None => true
    case Some(text) => StoredVersion(text) < CURRENT_KNOWLEDGE_VERSION
  }

  /** The gems that `get` finds, in listing order; a gem that is missing or
      fails to load is skipped. */
  function Loaded(ids: seq<string>, lookup: string -> Result<Option<Gem>>): (r: seq<Gem>)
    ensures |r| <= |ids|
  {
    if |ids| == 0 then []
    else
      var rest := Loaded(ids[1..], lookup);
      match lookup(ids[0])
      case Ok(Some(g)) => [g] + rest
      case _ => rest
  }

  /** A gem is loaded exactly when some listed id looks it up successfully. */
  lemma {:induction false} LoadedMembers(ids: seq<string>, lookup: string -> Result<Option<Gem>>, g: Gem)
    ensures g in Loaded(ids, lookup) <==> exists i :: 0 <= i < |ids| && lookup(ids[i]) == Ok(Some(g))
  {
    if |ids| > 0 {
      LoadedMembers(ids[1..], lookup, g);
      if exists i :: 1 <= i < |ids| && lookup(ids[i]) == Ok(Some(g)) {
        var i :| 1 <= i < |ids| && lookup(ids[i]) == Ok(Some(g));
        assert ids[1..][i - 1] == ids[i];
      }
      if exists i :: 0 <= i < |ids[1..]| && lookup(ids[1..][i]) == Ok(Some(g)) {
        var i :| 0 <= i < |ids[1..]| && lookup(ids[1..][i]) == Ok(Some(g));
        assert ids[i + 1] == ids[1..][i];
      }
    }
  }

  /** When every lookup succeeds, every listed gem is migrated, in order. */
  lemma {:induction false} LoadedAll(gems: seq<Gem>, lookup: string -> Result<Option<Gem>>)
    requires forall i :: 0 <= i < |gems| ==> lookup(gems[i].id) == Ok(Some(gems[i]))
    ensures Loaded(IdsOf(gems), lookup) == gems
  {
    if |gems| > 0 {
      assert IdsOf(gems)[1..] == IdsOf(gems[1..]);
      LoadedAll(gems[1..], lookup);
      assert gems == [gems[0]] + gems[1..];
    }
  }

  function IdsOf(gems: seq<Gem>): (r: seq<string>)
    ensures |r| == |gems| && forall i :: 0 <= i < |gems| ==> r[i] == gems[i].id
  {
    seq(|gems|, i requires 0 <= i < |gems| => gems[i].id)
  }

  /** What a start-up run did: its result, the gems handed to `migrate_all`
      (None when it was not called) and the marker afterwards. */
  datatype Outcome = Outcome(result: Result<()>, migrated: Option<seq<Gem>>, marker: Option<string>)

  /** `check_and_run_migration`. `listed` is the ids of `list(LIST_LIMIT, 0)`
      or its error; `writeError` is the error of writing the marker, if any. */
  function CheckAndRun(marker: Option<string>, listed: Result<seq<string>>,
                       lookup: string -> Result<Option<Gem>>,
                       migrate: seq<Gem> -> Result<()>, writeError: Option<string>): (r: Outcome)
    ensures !NeedsMigration(marker) ==> r == Outcome(Ok(()), None, marker)
    ensures r.migrated.Some? <==> NeedsMigration(marker) && listed.Ok?
    ensures r.migrated.Some? ==> r.migrated.value == Loaded(listed.value, lookup)
    ensures r.marker != marker ==> r.result.Ok? && r.migrated.Some? && migrate(r.migrated.value).Ok?
    ensures r.result.Ok? && NeedsMigration(marker) ==> r.marker == Some(NatToString(CURRENT_KNOWLEDGE_VERSION))
    ensures r.result.Err? <==> NeedsMigration(marker)
                               && (listed.Err? || migrate(Loaded(listed.value, lookup)).Err? || writeError.Some?)
  {
    if !NeedsMigration(marker) then Outcome(Ok(()), None, marker)
    else
      match listed
      case Err(e) => Outcome(Err("Failed to list gems for migration: " + e), None, marker)
      case Ok(ids) =>
        var gems := Loaded(ids, lookup);
        match migrate(gems)
        case Err(e) => Outcome(Err(e), Some(gems), marker)
        case Ok(_) =>
          match writeError
          case Some(e) => Outcome(Err("Failed to write version marker: " + e), Some(gems), marker)
          case None => Outcome(Ok(()), Some(gems), Some(NatToString(CURRENT_KNOWLEDGE_VERSION)))
  }

  /** After a successful migration the next start-up finds the marker up to
      date and does nothing. */
  lemma {:induction false} MigrationSettles(marker: Option<string>, listed: Result<seq<string>>,
                         lookup: string -> Result<Option<Gem>>,
                         migrate: seq<Gem> -> Result<()>, writeError: Option<string>,
                         listed2: Result<seq<string>>, lookup2: string -> Result<Option<Gem>>,
                         migrate2: seq<Gem> -> Result<()>, writeError2: Option<string>)
    requires CheckAndRun(marker, listed, lookup, migrate, writeError).result.Ok?
    ensures var m := CheckAndRun(marker, listed, lookup, migrate, writeError).marker;
      !NeedsMigration(m) && CheckAndRun(m, listed2, lookup2, migrate2, writeError2) == Outcome(Ok(()), None, m)
  {
    var m := CheckAndRun(marker, listed, lookup, migrate, writeError).marker;
    if NeedsMigration(marker) {
      assert m == Some("1");
      TrimIdentity("1");
      assert ParseUnsigned("1", U32_LIMIT) == Some(1);
    }
  }
}
