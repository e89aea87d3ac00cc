/**
 * `SimpleLarkClient` in src/lark/client.py: the facade the converter uses. It
 * holds the table information, resolves the object token once, checks and
 * renames the records, and hands them to the record manager.
 */
module SimpleClient {
  import opened Wrappers
  import opened Text
  import opened Values
  import opened Formatter
  import opened LarkClient

  /** The exceptions the simple client raises. */
  datatype ClientError = ValueError(msg: string) | LarkAPIError(msg: string)

  const NoAppIdMsg := "App ID 不能為空"
  const NoAppSecretMsg := "App Secret 不能為空"
  const NoWikiTokenMsg := "Wiki Token 不能為空"
  const NoTableIdMsg := "Table ID 不能為空"
  const NoTableInfoMsg := "請先設定資料表資訊"
  const NoRecordsMsg := "記錄列表不能為空"
  const NoObjTokenMsg := "無法獲取 Obj Token"
  const UploadFailedPrefix := "批次建立記錄異常: 批次建立記錄失敗: "

  /** The message for the invalid record at 1-based position `n`. */
  function InvalidRecordMsg(n: int): string {
    "記錄 " + IntToString(n) + " 缺少必要欄位或格式錯誤"
  }

  /**
   * `_validate_record_format`: the six fields are present and the number,
   * title, steps and expected result are not blank. It is the check the
   * formatter applies to its own input.
   */
  predicate ValidRecordFormat(record: map<string, Value>) {
    HasRequired(record) && CriticalNonBlank(record)
  }

  /** Everything the formatter produces passes the client's check. */
  lemma FormattedRecordsPass(testCases: seq<Value>, r: LarkRecord)
    requires r in FormatBatch(testCases)
    ensures ValidRecordFormat(RecordToDict(r))
  {
    FormatBatchValid(testCases, r);
  }

  /** The first `false` in `bs`, if any. */
  function FirstFalse(bs: seq<bool>): (r: Option<nat>)
    ensures r.None? <==> forall k :: 0 <= k < |bs| ==> bs[k]
    ensures r.Some? ==> r.value < |bs| && !bs[r.value] && forall k :: 0 <= k < r.value ==> bs[k]
    decreases |bs|
  {
    if bs == [] then None
    else if !bs[0] then Some(0)
    else match FirstFalse(bs[1..])
      case None => None
      case Some(j) => Some(j + 1)
  }

  /** Which records pass `_validate_record_format`, position by position. */
  function Validity(records: seq<map<string, Value>>): (r: seq<bool>)
    ensures |r| == |records| && forall k :: 0 <= k < |records| ==> r[k] == ValidRecordFormat(records[k])
  {
    seq(|records|, k requires 0 <= k < |records| => ValidRecordFormat(records[k]))
  }

  /** The position of the first record that fails the check, if any. */
  function FirstInvalid(records: seq<map<string, Value>>): (r: Option<nat>)
    ensures r.None? <==> forall k :: 0 <= k < |records| ==> ValidRecordFormat(records[k])
    ensures r.Some? ==> r.value < |records| && !ValidRecordFormat(records[r.value])
                        && forall k :: 0 <= k < r.value ==> ValidRecordFormat(records[k])
  {
    var bs := Validity(records);
    var r := FirstFalse(bs);
    assert r.None? <==> forall k :: 0 <= k < |bs| ==> bs[k];
    r
  }

  /** The formatter's output, as dicts, has no invalid record. */
  lemma FormattedBatchUploads(testCases: seq<Value>)
    ensures var rs := FormatBatch(testCases);
            FirstInvalid(seq(|rs|, k requires 0 <= k < |rs| => RecordToDict(rs[k]))).None?
  {
    var rs := FormatBatch(testCases);
    var ds := seq(|rs|, k requires 0 <= k < |rs| => RecordToDict(rs[k]));
    forall k | 0 <= k < |ds| ensures ValidRecordFormat(ds[k]) {
      FormattedRecordsPass(testCases, rs[k]);
    }
  }

  /** The display labels of the six fields, in the order of the required fields. */
  const FieldLabels: seq<string> :=
    ["Test Case Number", "Title", "Priority", "Precondition", "Steps", "Expected Result"]

  /** The record under its display labels. */
  function LarkFields(record: map<string, Value>): (r: map<string, Value>)
    requires HasRequired(record)
  {
    map["Test Case Number" := record["test_case_number"], "Title" := record["title"],
        "Priority" := record["priority"], "Precondition" := record["precondition"],
        "Steps" := record["steps"], "Expected Result" := record["expected_result"]]
  }

  /** Renaming keeps every value: label `k` holds the value of required field `k`, and there are no other keys. */
  lemma LarkFieldsRenames(record: map<string, Value>)
    requires HasRequired(record)
    ensures LarkFields(record).Keys == set k | 0 <= k < |FieldLabels| :: FieldLabels[k]
    ensures forall k :: 0 <= k < |FieldLabels| ==> LarkFields(record)[FieldLabels[k]] == record[RequiredFields[k]]
  {
    var r := LarkFields(record);
    assert r[FieldLabels[0]] == record[RequiredFields[0]] && r[FieldLabels[1]] == record[RequiredFields[1]];
    assert r[FieldLabels[2]] == record[RequiredFields[2]] && r[FieldLabels[3]] == record[RequiredFields[3]];
    assert r[FieldLabels[4]] == record[RequiredFields[4]] && r[FieldLabels[5]] == record[RequiredFields[5]];
    assert r.Keys == set k | 0 <= k < |FieldLabels| :: FieldLabels[k] by {
      assert FieldLabels[0] in r && FieldLabels[1] in r && FieldLabels[2] in r;
      assert FieldLabels[3] in r && FieldLabels[4] in r && FieldLabels[5] in r;
    }
  }

  /** The renamed records, in order. */
  function LarkRecords(records: seq<map<string, Value>>): (r: seq<map<string, Value>>)
    requires forall k :: 0 <= k < |records| ==> HasRequired(records[k])
    ensures |r| == |records|
  {
    seq(|records|, k requires 0 <= k < |records| => LarkFields(records[k]))
  }

  /** `"; ".join(errors[:3])`, then the number of further messages when there are more than three. */
  function ErrorSummary(errors: seq<string>): string {
    Join("; ", errors[..Min(3, |errors|)])
    + (if |errors| > 3 then " (還有 " + IntToString(|errors| - 3) + " 個錯誤)" else "")
  }

  class SimpleLarkClient {
    const appId: string
    const appSecret: string
    const auth: AuthManager
    const tables: TableManager
    const recordManager: RecordManager
    /** `wiki_token` and `table_id`; unset is the empty string, which the code treats as it treats `None`. */
    var wikiToken: string
    var tableId: string
    var objToken: Value

    /** The managers share the one token cache. */
    predicate Wired() {
      tables.auth == auth && recordManager.auth == auth
    }

    constructor(appId: string, appSecret: string, net: Transport)
      requires appId != [] && appSecret != []
      ensures this.appId == appId && this.appSecret == appSecret && Wired()
      ensures auth.net == net && auth.token == VNone && auth.expireTime == None && tables.objTokens == map[]
      ensures wikiToken == [] && tableId == [] && objToken == VNone
      ensures fresh(auth) && fresh(tables) && fresh(recordManager)
    {
      this.appId := appId;
      this.appSecret := appSecret;
      var a := new AuthManager(appId, appSecret, net);
      auth := a;
      tables := new TableManager(a);
      recordManager := new RecordManager(a);
      wikiToken := [];
      tableId := [];
      objToken := VNone;
    }

    /** `SimpleLarkClient(app_id, app_secret)`: both must be non-empty. */
    static method Create(appId: string, appSecret: string, net: Transport) returns (r: Result<SimpleLarkClient, ClientError>)
      ensures appId == [] ==> r == Err(ValueError(NoAppIdMsg))
      ensures appId != [] && appSecret == [] ==> r == Err(ValueError(NoAppSecretMsg))
      ensures appId != [] && appSecret != [] ==>
                r.Ok? && fresh(r.value) && r.value.Wired() && r.value.auth.net == net
                && r.value.wikiToken == [] && r.value.tableId == [] && r.value.objToken == VNone
    {
      if appId == [] {
        return Err(ValueError(NoAppIdMsg));
      }
      if appSecret == [] {
        return Err(ValueError(NoAppSecretMsg));
      }
      var c := new SimpleLarkClient(appId, appSecret, net);
      return Ok(c);
    }

    /**
     * `_get_obj_token(wiki_token)`: a given token is resolved through the
     * table manager; without one, the cached object token is used, or the
     * configured wiki token is resolved and a truthy result kept.
     */
    method GetObjTokenFor(wiki: string, now: int) returns (r: Value)
      requires Wired()
      modifies this, tables, auth, auth.net
      ensures wikiToken == old(wikiToken) && tableId == old(tableId)
      ensures wiki != [] ==> objToken == old(objToken)
      ensures wiki == [] && Truthy(old(objToken)) ==>
                r == old(objToken) && unchanged(this, tables, auth, auth.net)
      ensures wiki == [] && !Truthy(old(objToken)) && old(wikiToken) == [] ==>
                r == VNone && unchanged(this, tables, auth, auth.net)
      ensures wiki == [] && !Truthy(old(objToken)) ==> objToken == (if Truthy(r) then r else old(objToken))
      ensures r == VNone || (wiki != [] && wiki in tables.objTokens && tables.objTokens[wiki] == r)
              || (wiki == [] && Truthy(old(objToken)) && r == old(objToken))
              || (wiki == [] && wikiToken in tables.objTokens && tables.objTokens[wikiToken] == r)
      ensures Uploads(auth.net.sent) == Uploads(old(auth.net.sent))
      ensures wiki != [] ==>
                (r, tables.objTokens, EnvOf(auth)) == ResolveRun(old(tables.objTokens), old(EnvOf(auth)), wiki, now)
      ensures wiki == [] && !Truthy(old(objToken)) && old(wikiToken) != [] ==>
                (r, tables.objTokens, EnvOf(auth)) == ResolveRun(old(tables.objTokens), old(EnvOf(auth)), old(wikiToken), now)
    {
      if wiki != [] {
        ghost var lookup;
        r, lookup := tables.GetObjToken(wiki, now);
      } else if Truthy(objToken) {
        r := objToken;
      } else if wikiToken != [] {
        ghost var lookup;
        r, lookup := tables.GetObjToken(wikiToken, now);
        if Truthy(r) {
          objToken := r;
        }
      } else {
        r := VNone;
      }
    }

    /** `set_table_info`: both values must be non-empty; the wiki token is resolved at once. */
    method SetTableInfo(wiki: string, table: string, now: int) returns (r: Result<bool, ClientError>)
      requires Wired()
      modifies this, tables, auth, auth.net
      ensures wiki == [] ==> r == Err(ValueError(NoWikiTokenMsg)) && unchanged(this, tables, auth, auth.net)
      ensures wiki != [] && table == [] ==> r == Err(ValueError(NoTableIdMsg)) && unchanged(this, tables, auth, auth.net)
      ensures wiki != [] && table != [] ==>
                wikiToken == wiki && tableId == table && r == Ok(Truthy(objToken))
                && (objToken == VNone || (wiki in tables.objTokens && tables.objTokens[wiki] == objToken))
                && (objToken, tables.objTokens, EnvOf(auth)) == ResolveRun(old(tables.objTokens), old(EnvOf(auth)), wiki, now)
      ensures Uploads(auth.net.sent) == Uploads(old(auth.net.sent))
    {
      if wiki == [] {
        return Err(ValueError(NoWikiTokenMsg));
      }
      if table == [] {
        return Err(ValueError(NoTableIdMsg));
      }
      wikiToken := wiki;
      tableId := table;
      var t := GetObjTokenFor(wiki, now);
      objToken := t;
      return Ok(Truthy(objToken));
    }

    /**
     * The step shared by `test_connection` and `batch_create_records`: when
     * no object token is held, the configured wiki token is resolved and the
     * result stored. The answer is whether a truthy token is now held.
     */
    method EnsureObjToken(now: int) returns (resolved: bool)
      requires Wired()
      modifies this, tables, auth, auth.net
      ensures resolved == Truthy(objToken)
      ensures wikiToken == old(wikiToken) && tableId == old(tableId)
      ensures Truthy(old(objToken)) ==> objToken == old(objToken) && unchanged(this, tables, auth, auth.net)
      ensures !Truthy(old(objToken)) && resolved ==> wikiToken in tables.objTokens && tables.objTokens[wikiToken] == objToken
      ensures !Truthy(old(objToken)) && old(wikiToken) != [] ==>
                (objToken, tables.objTokens, EnvOf(auth)) == ResolveRun(old(tables.objTokens), old(EnvOf(auth)), old(wikiToken), now)
      ensures !Truthy(old(objToken)) && old(wikiToken) == [] ==>
                !resolved && objToken == VNone && unchanged(tables, auth, auth.net)
      ensures Uploads(auth.net.sent) == Uploads(old(auth.net.sent))
    {
      if !Truthy(objToken) {
        var t := GetObjTokenFor(wikiToken, now);
        objToken := t;
      }
      resolved := Truthy(objToken);
    }

    /**
     * `test_connection`: the table information must be set; then a token and
     * an object token are needed, and the field list request must be accepted
     * with a `data` dict whose `items` has a length.
     */
    method TestConnection(now: int) returns (r: Result<bool, ClientError>)
      requires Wired()
      modifies this, tables, auth, auth.net
      ensures old(wikiToken) == [] || old(tableId) == [] ==>
                r == Err(ValueError(NoTableInfoMsg)) && unchanged(this, tables, auth, auth.net)
      ensures old(wikiToken) != [] && old(tableId) != [] ==> r.Ok?
      ensures r == Ok(true) ==>
                Truthy(objToken) && |auth.net.sent| > 0 && LastSent(auth.net.sent).FieldsRequest?
                && LastSent(auth.net.sent).objToken == Str(objToken) && LastSent(auth.net.sent).tableId == tableId
      ensures wikiToken == old(wikiToken) && tableId == old(tableId)
      ensures Uploads(auth.net.sent) == Uploads(old(auth.net.sent))
      ensures old(wikiToken) != [] && old(tableId) != [] ==>
                r == Ok(ConnectionRun(old(objToken), old(tables.objTokens), old(EnvOf(auth)), old(wikiToken), now).0)
                && (objToken, tables.objTokens, EnvOf(auth))
                   == ConnectionRun(old(objToken), old(tables.objTokens), old(EnvOf(auth)), old(wikiToken), now).1
    {
      if wikiToken == [] || tableId == [] {
        return Err(ValueError(NoTableInfoMsg));
      }
      ghost var e0 := EnvOf(auth);
      var accessToken := auth.GetTenantAccessToken(false, now);
      assert (accessToken, EnvOf(auth)) == TokenRun(e0, false, now);
      if !Truthy(accessToken) {
        return Ok(false);
      }
      var resolved := EnsureObjToken(now);
      if !resolved {
        return Ok(false);
      }
      var req := FieldsRequest(Str(accessToken), Str(objToken), tableId);
      UploadsSnoc(auth.net.sent, req);
      var reply := auth.net.Send(req);
      return Ok(ConnectionOk(reply));
    }

    /** `_validate_record_format`: the loop over the required fields, then the loop over the critical ones. */
    static method ValidateRecordFormat(record: map<string, Value>) returns (ok: bool)
      ensures ok == ValidRecordFormat(record)
    {
      HasRequiredMeaning(record);
      var j := 0;
      while j < |RequiredFields|
        invariant 0 <= j <= |RequiredFields|
        invariant forall k :: 0 <= k < j ==> RequiredFields[k] in record
      {
        if RequiredFields[j] !in record {
          return false;
        }
        j := j + 1;
      }
      CriticalMeaning(record);
      CriticalPresent(record);
      j := 0;
      while j < |CriticalFields|
        invariant 0 <= j <= |CriticalFields|
        invariant forall k :: 0 <= k < j ==> !IsBlankValue(record[CriticalFields[k]])
      {
        if IsBlankValue(record[CriticalFields[j]]) {
          return false;
        }
        j := j + 1;
      }
      return true;
    }

    /** The validation loop: the first record failing `_validate_record_format`. */
    static method FindInvalid(records: seq<map<string, Value>>) returns (r: Option<nat>)
      ensures r == FirstInvalid(records)
    {
      ghost var bs := Validity(records);
      var i := 0;
      while i < |records|
        invariant 0 <= i <= |records|
        invariant forall k :: 0 <= k < i ==> bs[k]
      {
        var ok := ValidateRecordFormat(records[i]);
        assert bs[i] == ok;
        if !ok {
          FirstFalseAt(bs, i);
          return Some(i);
        }
        PassedStep(bs, i);
        i := i + 1;
      }
      return None;
    }

    /** The renaming loop: each record under its display labels. */
    static method RenameRecords(records: seq<map<string, Value>>) returns (larkRecords: seq<map<string, Value>>)
      requires forall k :: 0 <= k < |records| ==> HasRequired(records[k])
      ensures larkRecords == LarkRecords(records)
    {
      larkRecords := [];
      var i := 0;
      while i < |records|
        invariant 0 <= i <= |records| && |larkRecords| == i
        invariant forall k :: 0 <= k < i ==> larkRecords[k] == LarkFields(records[k])
      {
        larkRecords := larkRecords + [LarkFields(records[i])];
        i := i + 1;
      }
    }

    /** The upload once every record passed: the record manager's chunks, then the error summary. */
    method UploadValid(records: seq<map<string, Value>>, now: int)
      returns (r: Result<(bool, seq<Value>), ClientError>, ghost outcomes: seq<ChunkOutcome>)
      requires Wired() && FirstInvalid(records).None?
      modifies auth, auth.net
      ensures |outcomes| == |Chunks(LarkRecords(records))|
      ensures Uploads(auth.net.sent) == Uploads(old(auth.net.sent))
                                        + ToTable(Str(objToken), tableId, SentChunks(Chunks(LarkRecords(records)), outcomes))
      ensures r.Ok? <==> ErrorsOf(outcomes) == []
      ensures r.Ok? ==> r.value == (true, IdsOf(outcomes))
      ensures r.Err? ==> r.error == LarkAPIError(UploadFailedPrefix + ErrorSummary(ErrorsOf(outcomes)))
      ensures (outcomes, EnvOf(auth)) == RunChunks(old(EnvOf(auth)), |Chunks(LarkRecords(records))|, now)
    {
      var larkRecords := RenameRecords(records);
      var success, successIds, errorMessages;
      success, successIds, errorMessages, outcomes :=
        recordManager.BatchCreateRecords(Str(objToken), tableId, larkRecords, now);
      if errorMessages != [] {
        return Err(LarkAPIError(UploadFailedPrefix + ErrorSummary(errorMessages))), outcomes;
      }
      return Ok((success, successIds)), outcomes;
    }

    /**
     * `batch_create_records`: the table information, a non-empty list, an
     * object token and valid records are required, in that order and before
     * anything is uploaded; the records go out under their display labels;
     * the ids come back only when no chunk failed.
     */
    method BatchCreateRecords(records: seq<map<string, Value>>, now: int)
      returns (r: Result<(bool, seq<Value>), ClientError>, ghost uploaded: bool, ghost outcomes: seq<ChunkOutcome>)
      requires Wired()
      modifies this, tables, auth, auth.net
      ensures wikiToken == old(wikiToken) && tableId == old(tableId)
      ensures Truthy(old(objToken)) ==> objToken == old(objToken)
      ensures old(wikiToken) == [] || old(tableId) == [] ==>
                r == Err(ValueError(NoTableInfoMsg)) && unchanged(this, tables, auth, auth.net)
      ensures old(wikiToken) != [] && old(tableId) != [] && records == [] ==>
                r == Err(ValueError(NoRecordsMsg)) && unchanged(this, tables, auth, auth.net)
      ensures old(wikiToken) != [] && old(tableId) != [] && records != [] && !Truthy(objToken) ==>
                r == Err(LarkAPIError(NoObjTokenMsg))
      ensures old(wikiToken) != [] && old(tableId) != [] && records != [] && Truthy(objToken)
              && FirstInvalid(records).Some? ==>
                r == Err(ValueError(InvalidRecordMsg(FirstInvalid(records).value + 1)))
      ensures uploaded <==> old(wikiToken) != [] && old(tableId) != [] && records != [] && Truthy(objToken)
                            && FirstInvalid(records).None?
      ensures !uploaded ==> r.Err? && Uploads(auth.net.sent) == Uploads(old(auth.net.sent))
      ensures uploaded ==>
                |outcomes| == |Chunks(LarkRecords(records))|
                && Uploads(auth.net.sent) == Uploads(old(auth.net.sent))
                                             + ToTable(Str(objToken), tableId, SentChunks(Chunks(LarkRecords(records)), outcomes))
                && (r.Ok? <==> ErrorsOf(outcomes) == [])
                && (r.Ok? ==> r.value == (true, IdsOf(outcomes)))
                && (r.Err? ==> r.error == LarkAPIError(UploadFailedPrefix + ErrorSummary(ErrorsOf(outcomes))))
      ensures old(wikiToken) != [] && old(tableId) != [] && records != [] ==>
                var resolution := ResolveRun(old(tables.objTokens), old(EnvOf(auth)), old(wikiToken), now);
                (Truthy(old(objToken)) ==> tables.objTokens == old(tables.objTokens))
                && (!Truthy(old(objToken)) ==> objToken == resolution.0 && tables.objTokens == resolution.1)
      ensures old(wikiToken) != [] && old(tableId) != [] && records != [] ==>
                var before := if Truthy(old(objToken)) then old(EnvOf(auth))
                              else ResolveRun(old(tables.objTokens), old(EnvOf(auth)), old(wikiToken), now).2;
                (!uploaded ==> EnvOf(auth) == before)
                && (uploaded ==> (outcomes, EnvOf(auth)) == RunChunks(before, |Chunks(LarkRecords(records))|, now))
    {
      outcomes, uploaded := [], false;
      if wikiToken == [] || tableId == [] {
        return Err(ValueError(NoTableInfoMsg)), false, [];
      }
      if records == [] {
        return Err(ValueError(NoRecordsMsg)), false, [];
      }
      ghost var e0, c0, t0 := EnvOf(auth), tables.objTokens, objToken;
      ghost var resolution := ResolveRun(c0, e0, wikiToken, now);
      var resolved := EnsureObjToken(now);
      assert EnvOf(auth) == if Truthy(t0) then e0 else resolution.2;
      assert !Truthy(t0) ==> objToken == resolution.0 && tables.objTokens == resolution.1;
      if !resolved {
        return Err(LarkAPIError(NoObjTokenMsg)), false, [];
      }
      var invalid := FindInvalid(records);
      if invalid.Some? {
        return Err(ValueError(InvalidRecordMsg(invalid.value + 1))), false, [];
      }
      uploaded := true;
      r, outcomes := UploadValid(records, now);
    }
  }

  /** The critical fields are among the required ones. */
  lemma CriticalPresent(m: map<string, Value>)
    requires HasRequired(m)
    ensures forall k :: 0 <= k < |CriticalFields| ==> CriticalFields[k] in m
  {
  }

  /** One more passing position extends the passing prefix. */
  lemma PassedStep(bs: seq<bool>, i: nat)
    requires i < |bs| && bs[i] && forall k :: 0 <= k < i ==> bs[k]
    ensures forall k :: 0 <= k < i + 1 ==> bs[k]
  {
  }

  /** The first `false` is the one every earlier position passes. */
  lemma FirstFalseAt(bs: seq<bool>, i: nat)
    requires i < |bs| && !bs[i] && forall k :: 0 <= k < i ==> bs[k]
    ensures FirstFalse(bs) == Some(i)
  {
    var r := FirstFalse(bs);
    assert r.Some?;
  }

  /**
   * `test_connection` once the table information is set, on the object
   * token, the cache of resolutions and the state: an access token is
   * needed, then an object token (resolved from the wiki token when none is
   * held), and then the field list request decides. The answer, and the
   * object token, cache and state afterwards.
   */
  function ConnectionRun(objToken: Value, cache: map<string, Value>, e: Env, wikiToken: string, now: int)
    : (bool, (Value, map<string, Value>, Env))
  {
    var (token, e1) := TokenRun(e, false, now);
    if !Truthy(token) then (false, (objToken, cache, e1))
    else
      var (t, c2, e2) := if Truthy(objToken) then (objToken, cache, e1) else ResolveRun(cache, e1, wikiToken, now);
      if !Truthy(t) then (false, (t, c2, e2))
      else (ConnectionOk(NextReply(e2.pending)), (t, c2, Env(e2.cache, AfterReply(e2.pending))))
  }

  /** With a servable access token and an object token held, the answer is the verdict on the first scripted reply. */
  lemma ConnectionDecidedByReply(objToken: Value, cache: map<string, Value>, e: Env, w: string, now: int)
    requires ServedFromCache(e.cache, false, now) && Truthy(objToken) && e.pending != []
    ensures ConnectionRun(objToken, cache, e, w, now).0 == ConnectionOk(e.pending[0])
  {
  }

  /** A refused token request makes the test fail with no further request. */
  lemma ConnectionNeedsToken(objToken: Value, cache: map<string, Value>, e: Env, w: string, now: int)
    requires !ServedFromCache(e.cache, false, now) && !Accepted(NextReply(e.pending))
    ensures ConnectionRun(objToken, cache, e, w, now) == (false, (objToken, cache, Env(e.cache, AfterReply(e.pending))))
  {
    FailedFetchKeepsCache(e.cache, NextReply(e.pending), now);
  }

  /**
   * The answer is true only when an access token was had, an object token is
   * held afterwards, and the reply to the field list request was usable.
   */
  lemma ConnectionTrueMeansReply(objToken: Value, cache: map<string, Value>, e: Env, w: string, now: int)
    requires ConnectionRun(objToken, cache, e, w, now).0
    ensures Truthy(TokenRun(e, false, now).0) && Truthy(ConnectionRun(objToken, cache, e, w, now).1.0)
    ensures ConnectionOk(NextReply(FieldsPending(objToken, cache, e, w, now)))
  {
  }

  /** The replies still to come when the field list request is sent. */
  function FieldsPending(objToken: Value, cache: map<string, Value>, e: Env, w: string, now: int): seq<Reply> {
    var (_, e1) := TokenRun(e, false, now);
    if Truthy(objToken) then e1.pending else ResolveRun(cache, e1, w, now).2.pending
  }

  /** The field list answer is usable: accepted, with `data` a dict whose `items` has a length. */
  predicate ConnectionOk(reply: Reply) {
    Accepted(reply)
    && var data := Get(reply.json.value.entries, "data", VDict(map[]));
       data.VDict? && HasLen(Get(data.entries, "items", VList([])))
  }
}
