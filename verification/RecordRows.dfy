/** Run and health records as rows and back (persistence/serialization.py): what is stored is
    redacted, and storing what was just loaded stores the same values. */
module RecordRows {
  import opened Text
  import opened ModelText
  import TokenRedaction
  import opened DeepRedaction

  /** Canonical JSON text of a mapping; encoding fails for what JSON cannot hold. */
  datatype Codec = Codec(
    encode: map<string, Value> -> Option<string>, decode: string -> Option<map<string, Value>>,
    hasCredentials: string -> bool)

  ghost predicate Sound(c: Codec) {
    forall m :: c.encode(m).Some? ==> c.decode(c.encode(m).value) == Some(m)
  }

  datatype RunRecord = RunRecord(
    id: string, session: string, status: string, started: Option<int>, completed: Option<int>,
    startUrl: Option<string>, errorType: Option<string>, errorMessage: Option<string>, metadata: map<string, Value>)

  datatype RunRow = RunRow(
    id: string, session: string, status: string, started: Option<int>, completed: Option<int>,
    startUrl: Option<string>, errorType: Option<string>, errorMessage: Option<string>, metadataJson: string)

  datatype HealthRecord = HealthRecord(
    session: string, status: string, reason: Option<string>, lastSuccess: Option<string>, lastFailure: Option<string>)

  /** A record as the model lets it exist. */
  predicate ValidRun(r: RunRecord) {
    && Clipped(r.id) && Clipped(r.session) && Clipped(r.status) && ClippedOption(r.startUrl)
    && ClippedOption(r.errorType) && ClippedOption(r.errorMessage) && forall k :: k in r.metadata ==> Clipped(k)
  }

  predicate ValidHealth(h: HealthRecord) {
    && Clipped(h.session) && Clipped(h.status) && ClippedOption(h.reason) && ClippedOption(h.lastSuccess)
    && ClippedOption(h.lastFailure)
  }

  function RedactOption(s: Option<string>): Option<string> {
    if s.Some? then Some(TokenRedaction.RedactString(s.value)) else None
  }

  function RedactMetadata(m: map<string, Value>): map<string, Value> { Redacted(Map(m)).entries }

  // ------------------------------------------------------------------
  // Runs
  // ------------------------------------------------------------------

  /** `run_to_row_values`; None when the start URL carries credentials or the metadata is not
      serializable. */
  function RunToRow(c: Codec, r: RunRecord): Option<RunRow> {
    var json := c.encode(RedactMetadata(r.metadata));
    if (r.startUrl.Some? && c.hasCredentials(r.startUrl.value)) || json.None? then None
    else
      Some(RunRow(r.id, r.session, r.status, r.started, r.completed, r.startUrl, r.errorType,
                  RedactOption(r.errorMessage), json.value))
  }

  /** `run_from_row`; None when the stored metadata is not a JSON object. */
  ghost function RunFromRow(c: Codec, row: RunRow): Option<RunRecord> {
    var metadata := c.decode(row.metadataJson);
    if metadata.None? then None
    else
      Some(RunRecord(
        StripText(row.id), StripText(row.session), StripText(row.status), row.started, row.completed,
        StripOption(row.startUrl), StripOption(row.errorType), StripOption(row.errorMessage), StripKeys(metadata.value)))
  }

  /** Redacting keeps a text clipped, and redacting it again changes nothing. */
  lemma RedactOptionSettles(s: Option<string>)
    requires ClippedOption(s)
    ensures ClippedOption(RedactOption(s)) && RedactOption(RedactOption(s)) == RedactOption(s)
  {
    if s.Some? {
      TokenRedaction.RedactedTrimmed(s.value, IsModelWhite);
      TokenRedaction.RedactedIsNormal(s.value);
      TokenRedaction.RedactFixesNormalForms(TokenRedaction.RedactString(s.value));
    }
  }

  lemma RedactMetadataSettles(m: map<string, Value>)
    ensures RedactMetadata(m).Keys == m.Keys && RedactMetadata(RedactMetadata(m)) == RedactMetadata(m)
  {
    RedactionIsIdempotent(Map(m));
    assert Map(RedactMetadata(m)) == Redacted(Map(m));
  }

  /** A record as it is stored. */
  function Kept(r: RunRecord): RunRecord {
    r.(errorMessage := RedactOption(r.errorMessage), metadata := RedactMetadata(r.metadata))
  }

  lemma RunComesBack(c: Codec, r: RunRecord)
    requires Sound(c) && ValidRun(r) && RunToRow(c, r).Some?
    ensures RunFromRow(c, RunToRow(c, r).value) == Some(Kept(r))
  {
    hide StripText, StripOption, StripKeys, RedactOption, RedactMetadata, Clipped, ClippedOption;
    StripClipped(r.id);
    StripClipped(r.session);
    StripClipped(r.status);
    StripOptionClipped(r.startUrl);
    StripOptionClipped(r.errorType);
    RedactOptionSettles(r.errorMessage);
    StripOptionClipped(RedactOption(r.errorMessage));
    RedactMetadataSettles(r.metadata);
    StripKeysClipped(RedactMetadata(r.metadata));
  }

  lemma KeptAgain(c: Codec, r: RunRecord)
    requires ValidRun(r)
    ensures ValidRun(Kept(r)) && RunToRow(c, Kept(r)) == RunToRow(c, r)
  {
    hide RedactOption, RedactMetadata, Clipped, ClippedOption;
    RedactOptionSettles(r.errorMessage);
    RedactMetadataSettles(r.metadata);
  }

  lemma KeptIs(r: RunRecord)
    ensures Redacted(Map(r.metadata)).Map?
    ensures Kept(r) == r.(
              errorMessage :=
                if r.errorMessage.Some? then Some(TokenRedaction.RedactString(r.errorMessage.value)) else None,
              metadata := Redacted(Map(r.metadata)).entries)
  {
  }

  /** Loading a stored run gives back the record, redacted; storing that again writes the same
      row values. */
  lemma RunResave(c: Codec, r: RunRecord)
    requires Sound(c) && ValidRun(r) && RunToRow(c, r).Some?
    ensures var row := RunToRow(c, r).value;
            var back := RunFromRow(c, row);
            && back == Some(r.(
                 errorMessage :=
                   if r.errorMessage.Some? then Some(TokenRedaction.RedactString(r.errorMessage.value)) else None,
                 metadata := Redacted(Map(r.metadata)).entries))
            && ValidRun(back.value) && RunToRow(c, back.value) == Some(row)
  {
    hide *;
    hide TokenRedaction.RedactString, Redacted;
    RunComesBack(c, r);
    KeptAgain(c, r);
    KeptIs(r);
  }

  /** A run is refused exactly when its start URL carries credentials or its redacted metadata
      has no JSON form; a row exactly when its metadata is not a JSON object. */
  lemma RefusedExactly(c: Codec, r: RunRecord, row: RunRow)
    ensures RunToRow(c, r).None? <==>
              || (r.startUrl.Some? && c.hasCredentials(r.startUrl.value))
              || c.encode(Redacted(Map(r.metadata)).entries).None?
    ensures RunFromRow(c, row).None? <==> c.decode(row.metadataJson).None?
  {
    hide Redacted;
  }

  lemma LoadedIsValid(c: Codec, row: RunRow)
    requires RunFromRow(c, row).Some?
    ensures ValidRun(RunFromRow(c, row).value)
  {
    hide StripText, Clipped, StripKeys;
    StripClips(row.id);
    StripClips(row.session);
    StripClips(row.status);
    if row.startUrl.Some? { StripClips(row.startUrl.value); }
    if row.errorType.Some? { StripClips(row.errorType.value); }
    if row.errorMessage.Some? { StripClips(row.errorMessage.value); }
    StripKeysClips(c.decode(row.metadataJson).value);
  }

  /** Whatever wrote a row, one save after a load settles it: every later load and save writes
      the same values. */
  lemma AnyRunRowSettles(c: Codec, row: RunRow)
    requires Sound(c) && RunFromRow(c, row).Some? && RunToRow(c, RunFromRow(c, row).value).Some?
    ensures var saved := RunToRow(c, RunFromRow(c, row).value).value;
            && RunFromRow(c, saved).Some? && RunToRow(c, RunFromRow(c, saved).value) == Some(saved)
  {
    LoadedIsValid(c, row);
    hide *;
    RunResave(c, RunFromRow(c, row).value);
  }

  /** Nothing unredacted is stored. */
  lemma StoredRunIsClean(c: Codec, r: RunRecord)
    requires Sound(c) && RunToRow(c, r).Some?
    ensures var row := RunToRow(c, r).value;
            && c.decode(row.metadataJson).Some? && Clean(Map(c.decode(row.metadataJson).value))
            && (row.errorMessage.Some? ==> TokenRedaction.NormalForm(row.errorMessage.value))
            && (row.startUrl.Some? ==> !c.hasCredentials(row.startUrl.value))
  {
    RedactedIsClean(Map(r.metadata));
    assert Map(RedactMetadata(r.metadata)) == Redacted(Map(r.metadata));
    if r.errorMessage.Some? { TokenRedaction.RedactedIsNormal(r.errorMessage.value); }
    hide Clean, Redacted, RedactMetadata, TokenRedaction.NormalForm, TokenRedaction.RedactString;
  }

  // ------------------------------------------------------------------
  // Health
  // ------------------------------------------------------------------

  /** `build_record` and `persist_record` redact the reason, and `health_to_row_values` redacts
      it once more. */
  function BuildHealth(h: HealthRecord): HealthRecord { h.(reason := StripOption(RedactOption(h.reason))) }

  function PersistHealth(h: HealthRecord): HealthRecord { HealthToRow(h.(reason := RedactOption(h.reason))) }

  function HealthToRow(h: HealthRecord): HealthRecord { h.(reason := RedactOption(h.reason)) }

  function HealthFromRow(row: HealthRecord): HealthRecord {
    HealthRecord(StripText(row.session), StripText(row.status), StripOption(row.reason), StripOption(row.lastSuccess),
                 StripOption(row.lastFailure))
  }

  /** However often the reason is redacted on the way, the stored reason is that of the first
      time, and storing a loaded record stores it unchanged. */
  lemma HealthResave(h: HealthRecord)
    requires ValidHealth(h)
    ensures PersistHealth(BuildHealth(h)) == HealthToRow(h) == PersistHealth(h)
    ensures HealthFromRow(HealthToRow(h)) == HealthToRow(h) && PersistHealth(HealthFromRow(HealthToRow(h))) == HealthToRow(h)
    ensures HealthToRow(h).(reason := h.reason) == h && (HealthToRow(h).reason.Some? <==> h.reason.Some?)
    ensures h.reason.Some? ==>
              var stored := HealthToRow(h).reason.value;
              && TokenRedaction.Replaced(h.reason.value, stored) && TokenRedaction.NormalForm(stored)
              && (TokenRedaction.NormalForm(h.reason.value) ==> stored == h.reason.value)
  {
    RedactOptionSettles(h.reason);
    StripOptionClipped(RedactOption(h.reason));
    StripClipped(h.session);
    StripClipped(h.status);
    StripOptionClipped(h.lastSuccess);
    StripOptionClipped(h.lastFailure);
    if h.reason.Some? {
      TokenRedaction.RedactedIsNormal(h.reason.value);
      TokenRedaction.RedactedExactly(h.reason.value, TokenRedaction.RedactString(h.reason.value));
      TokenRedaction.RedactFixesNormalForms(h.reason.value);
    }
    hide StripText, StripOption, Clipped;
    hide TokenRedaction.NormalForm, TokenRedaction.Replaced, TokenRedaction.RedactString;
  }
}
