/**
 Uploading and reading back the frpc configuration over the admin API
 (client/admin_api.go): token rows are never shown, and an upload re-inserts the
 stored token row behind every [common] row. Template rendering is the identity.
 */
module AdminConfig {
  import opened Text
  import opened Wrappers
  import opened RowTransforms

  const NEWLINE := '\n'

  predicate IsToken(row: string)
  {
    "token" <= row
  }

  predicate IsCommon(row: string)
  {
    "[common]" <= row
  }

  function Rows(content: string): seq<string>
  {
    Mapped(Split(content, NEWLINE), TrimSpace)
  }

  /** What the API shows of a configuration. */
  function Shown(content: string): string
  {
    Join(Drop(Rows(content), IsToken), NEWLINE)
  }

  function StoredToken(content: string): Option<string>
  {
    First(Rows(content), IsToken)
  }

  /** The rows an upload of body over content writes. */
  function Written(content: string, body: string): seq<string>
  {
    var rows := Drop(Rows(body), IsToken);
    match StoredToken(content)
    case Some(token) => InsertBehind(rows, IsCommon, token)
    case None => rows
  }

  function Uploaded(content: string, body: string): string
  {
    Join(Written(content, body), NEWLINE)
  }

  predicate HasCommon(body: string)
  {
    Any(Rows(body), IsCommon)
  }

  // ----- rows that survive being written and read again

  /** A row as the API produces it: trimmed, and on one line. */
  ghost predicate Clean(row: string)
  {
    NEWLINE !in row && TrimSpace(row) == row
  }

  ghost predicate AllClean(rows: seq<string>)
  {
    forall r :: r in rows ==> Clean(r)
  }

  lemma RowsAreClean(content: string)
    ensures AllClean(Rows(content))
  {
    var lines := Split(content, NEWLINE);
    SplitPartsLackSeparator(content, NEWLINE);
    forall i | 0 <= i < |lines| ensures Clean(Rows(content)[i]) {
      TrimSpaceIdempotent(lines[i]);
    }
  }

  /** Clean rows come back as they were written; no rows come back as one empty row. */
  lemma RowsOfJoin(rows: seq<string>)
    requires AllClean(rows)
    ensures Rows(Join(rows, NEWLINE)) == if rows == [] then [""] else rows
  {
    if rows == [] {
      assert Rows("") == [""];
    } else {
      forall i | 0 <= i < |rows| ensures NEWLINE !in rows[i] {
        assert Clean(rows[i]);
      }
      SplitOfJoin(rows, NEWLINE);
      MappedFixed(rows, TrimSpace);
    }
  }

  lemma WrittenIsClean(content: string, body: string)
    ensures AllClean(Written(content, body))
  {
    RowsAreClean(content);
    RowsAreClean(body);
    DropIsUnmarked(Rows(body), IsToken);
    FirstIsMarked(Rows(content), IsToken);
    var rows := Drop(Rows(body), IsToken);
    match StoredToken(content) {
      case Some(token) => InsertElements(rows, IsCommon, token);
      case None =>
    }
  }

  lemma EmptyRow()
    ensures !Any([""], IsToken) && !Any([""], IsCommon)
  {
  }

  /** Reading after an upload shows exactly the upload's trimmed rows without its token rows. */
  lemma ReadBack(content: string, body: string)
    ensures Shown(Uploaded(content, body)) == Shown(body)
  {
    WrittenIsClean(content, body);
    var rows, written := Drop(Rows(body), IsToken), Written(content, body);
    RowsOfJoin(written);
    DropIsUnmarked(Rows(body), IsToken);
    FirstIsMarked(Rows(content), IsToken);
    match StoredToken(content) {
      case Some(token) =>
        InsertElements(rows, IsCommon, token);
        DropUndoesInsert(rows, IsToken, IsCommon, token);
      case None =>
        DropNothing(rows, IsToken);
    }
    if written == [] {
      EmptyRow();
      DropNothing([""], IsToken);
    }
  }

  lemma NoCommonToken(row: string)
    requires IsToken(row)
    ensures !IsCommon(row)
  {
    assert row[0] == 't';
  }

  /** One upload keeps a stored token exactly when the body has a [common] row. */
  lemma TokenAfterUpload(content: string, body: string)
    ensures StoredToken(Uploaded(content, body)) == if HasCommon(body) then StoredToken(content) else None
  {
    WrittenIsClean(content, body);
    var rows, written := Drop(Rows(body), IsToken), Written(content, body);
    RowsOfJoin(written);
    DropIsUnmarked(Rows(body), IsToken);
    FirstIsMarked(Rows(content), IsToken);
    forall r | r in Rows(body) && IsToken(r) ensures !IsCommon(r) {
      NoCommonToken(r);
    }
    DropKeepsAnchors(Rows(body), IsToken, IsCommon);
    match StoredToken(content) {
      case Some(token) =>
        InsertElements(rows, IsCommon, token);
        FirstOfInsert(rows, IsToken, IsCommon, token);
      case None =>
        DropNothing(rows, IsToken);
    }
    if written == [] {
      EmptyRow();
      DropNothing([""], IsToken);
    }
  }

  // ----- what becomes of each row

  /** t is the row without the white space at its ends. */
  ghost predicate TrimmedOf(row: string, t: string)
  {
    && (t != "" ==> !IsSpace(t[0]) && !IsSpace(t[|t| - 1]))
    && exists a, b :: Padded(row, a, t, b)
  }

  lemma TrimmedIff(row: string, t: string)
    ensures TrimmedOf(row, t) <==> t == TrimSpace(row)
  {
    var a, b := TrimSpaceMeans(row);
    if TrimmedOf(row, t) {
      var a', b' :| Padded(row, a', t, b');
      TrimSpaceUnique(row, a', t, b');
    }
  }

  /** The row is a token row. */
  ghost predicate TokenRow(row: string)
  {
    exists t :: TrimmedOf(row, t) && "token" <= t
  }

  lemma TokenRowIff(row: string)
    ensures TokenRow(row) <==> IsToken(TrimSpace(row))
  {
    TrimmedIff(row, TrimSpace(row));
    if TokenRow(row) {
      var t :| TrimmedOf(row, t) && "token" <= t;
      TrimmedIff(row, t);
    }
  }

  /** shown has the rows of text that are no token rows, trimmed and in order; the k-th was the row idx[k]. */
  ghost predicate ShowsAt(text: string, shown: seq<string>, idx: seq<nat>)
  {
    var rows := Split(text, NEWLINE);
    && |idx| == |shown| && Increasing(idx)
    && (forall k :: 0 <= k < |idx| ==> idx[k] < |rows| && TrimmedOf(rows[idx[k]], shown[k]))
    && (forall i :: 0 <= i < |rows| ==> (!TokenRow(rows[i]) <==> i in idx))
  }

  lemma RowsShown(text: string) returns (idx: seq<nat>)
    ensures ShowsAt(text, Drop(Rows(text), IsToken), idx)
  {
    var rows := Split(text, NEWLINE);
    idx := DropIndices(Rows(text), IsToken);
    forall i | 0 <= i < |rows| ensures TokenRow(rows[i]) <==> IsToken(Rows(text)[i]) {
      TokenRowIff(rows[i]);
    }
    forall k | 0 <= k < |idx| ensures TrimmedOf(rows[idx[k]], Drop(Rows(text), IsToken)[k]) {
      TrimmedIff(rows[idx[k]], Drop(Rows(text), IsToken)[k]);
    }
  }

  /** Reading shows every row that is no token row, but for the white space at its ends, in order, and nothing else. */
  lemma ReadMeans(content: string) returns (shown: seq<string>, idx: seq<nat>)
    ensures Shown(content) == Join(shown, NEWLINE) && ShowsAt(content, shown, idx)
    ensures shown != [] ==> Split(Shown(content), NEWLINE) == shown
  {
    shown := Drop(Rows(content), IsToken);
    idx := RowsShown(content);
    if shown != [] {
      CleanAfterDrop(content);
      SplitClean(shown);
    }
  }

  lemma CleanAfterDrop(content: string)
    ensures AllClean(Drop(Rows(content), IsToken))
  {
    RowsAreClean(content);
    DropIsUnmarked(Rows(content), IsToken);
  }

  lemma SplitClean(rows: seq<string>)
    requires rows != [] && AllClean(rows)
    ensures Split(Join(rows, NEWLINE), NEWLINE) == rows
  {
    forall i | 0 <= i < |rows| ensures NEWLINE !in rows[i] {
      assert Clean(rows[i]);
    }
    SplitOfJoin(rows, NEWLINE);
  }

  /** Row i is a token row, trimmed to t, and no row before it is one. */
  ghost predicate FirstTokenAt(lines: seq<string>, t: string, i: nat)
  {
    && i < |lines| && TrimmedOf(lines[i], t) && "token" <= t
    && forall j :: 0 <= j < i ==> !TokenRow(lines[j])
  }

  lemma FirstTokenAtIff(content: string, t: string, i: nat)
    ensures FirstAt(Rows(content), IsToken, t, i) <==> FirstTokenAt(Split(content, NEWLINE), t, i)
  {
    var lines, rows := Split(content, NEWLINE), Rows(content);
    if i < |lines| {
      TrimmedIff(lines[i], t);
      forall j | 0 <= j < i ensures TokenRow(lines[j]) <==> IsToken(rows[j]) {
        TokenRowIff(lines[j]);
      }
    }
  }

  lemma FirstTokenExists(content: string, t: string)
    ensures (exists i: nat :: FirstAt(Rows(content), IsToken, t, i)) <==>
            exists i: nat :: FirstTokenAt(Split(content, NEWLINE), t, i)
  {
    if i: nat :| FirstAt(Rows(content), IsToken, t, i) {
      FirstTokenAtIff(content, t, i);
    }
    if i: nat :| FirstTokenAt(Split(content, NEWLINE), t, i) {
      FirstTokenAtIff(content, t, i);
    }
  }

  /** The stored token is the first token row, trimmed. */
  lemma StoredTokenIff(content: string, t: string)
    ensures StoredToken(content) == Some(t) <==> exists i: nat :: FirstTokenAt(Split(content, NEWLINE), t, i)
  {
    FirstIff(Rows(content), IsToken, t);
    FirstTokenExists(content, t);
  }

  /** Whether the row is a [common] row is decided by what it starts with. */
  predicate CommonRow(row: string)
  {
    "[common]" <= row
  }

  /** file has the rows of kept in order, the token directly behind each [common] row, and nothing else. */
  ghost predicate Fills(kept: seq<string>, token: string, file: seq<string>)
  {
    && |file| == PlaceOf(kept, CommonRow, |kept|)
    && forall k :: 0 <= k < |kept| ==> FilledAt(kept, token, file, k)
  }

  ghost predicate FilledAt(kept: seq<string>, token: string, file: seq<string>, k: nat)
    requires k < |kept|
  {
    var at := PlaceOf(kept, CommonRow, k);
    at < |file| && file[at] == kept[k] && (CommonRow(kept[k]) ==> at + 1 < |file| && file[at + 1] == token)
  }

  lemma {:induction false} SamePlaces(kept: seq<string>, k: nat)
    requires k <= |kept|
    ensures PlaceOf(kept, IsCommon, k) == PlaceOf(kept, CommonRow, k)
  {
    if k > 0 { SamePlaces(kept, k - 1); }
  }

  /**
   After an upload the file has every row of the body that is no token row, but for the white space at its
   ends and in order; if a token was stored, it stands behind each [common] row; and there is nothing else.
   */
  lemma UploadMeans(content: string, body: string) returns (kept: seq<string>, idx: seq<nat>, file: seq<string>)
    ensures ShowsAt(body, kept, idx)
    ensures Uploaded(content, body) == Join(file, NEWLINE) && (kept != [] ==> Split(Uploaded(content, body), NEWLINE) == file)
    ensures match StoredToken(content)
            case Some(token) => Fills(kept, token, file)
            case None => file == kept
  {
    kept := Drop(Rows(body), IsToken);
    idx := RowsShown(body);
    file := Written(content, body);
    WrittenIsClean(content, body);
    if StoredToken(content).Some? {
      FillsWritten(kept, StoredToken(content).value);
    }
    if kept != [] {
      if StoredToken(content).Some? { InsertElements(kept, IsCommon, StoredToken(content).value); }
      SplitClean(file);
    }
  }

  lemma FillsWritten(kept: seq<string>, token: string)
    ensures Fills(kept, token, InsertBehind(kept, IsCommon, token))
  {
    var file := InsertBehind(kept, IsCommon, token);
    InsertPlaces(kept, IsCommon, token);
    SamePlaces(kept, |kept|);
    forall k | 0 <= k < |kept| ensures FilledAt(kept, token, file, k) {
      assert PlacedAt(kept, IsCommon, token, k);
      SamePlaces(kept, k);
    }
  }

  /** A row that is no token row is among those shown. */
  lemma ShownHas(text: string, shown: seq<string>, idx: seq<nat>, i: nat, t: string) returns (k: nat)
    requires ShowsAt(text, shown, idx) && i < |Split(text, NEWLINE)|
    requires !TokenRow(Split(text, NEWLINE)[i]) && TrimmedOf(Split(text, NEWLINE)[i], t)
    ensures k < |shown| && shown[k] == t
  {
    assert i in idx;
    k :| 0 <= k < |idx| && idx[k] == i;
    TrimmedIff(Split(text, NEWLINE)[i], t);
    TrimmedIff(Split(text, NEWLINE)[i], shown[k]);
  }

  lemma FileHas(kept: seq<string>, token: string, file: seq<string>, k: nat)
    requires Fills(kept, token, file) && k < |kept|
    ensures kept[k] in file
  {
    assert FilledAt(kept, token, file, k);
  }

  /** No row of an upload is lost: each that is no token row is in the file, but for the white space at its ends. */
  lemma RowsSurvive(content: string, body: string, i: nat, t: string)
    requires i < |Split(body, NEWLINE)| && !TokenRow(Split(body, NEWLINE)[i]) && TrimmedOf(Split(body, NEWLINE)[i], t)
    ensures t in Split(Uploaded(content, body), NEWLINE)
  {
    var kept, idx, file := UploadMeans(content, body);
    var k := ShownHas(body, kept, idx, i, t);
    match StoredToken(content) {
      case Some(token) => FileHas(kept, token, file, k);
      case None =>
    }
  }

  /** And each is shown by the next read. */
  lemma RowsAreShown(content: string, body: string, i: nat, t: string)
    requires i < |Split(body, NEWLINE)| && !TokenRow(Split(body, NEWLINE)[i]) && TrimmedOf(Split(body, NEWLINE)[i], t)
    ensures t in Split(Shown(Uploaded(content, body)), NEWLINE)
  {
    ReadBack(content, body);
    var shown, idx := ReadMeans(body);
    var k := ShownHas(body, shown, idx, i, t);
  }

  /** Row i is a [common] row, trimmed to t. */
  ghost predicate CommonAt(lines: seq<string>, i: nat, t: string)
  {
    i < |lines| && TrimmedOf(lines[i], t) && "[common]" <= t
  }

  lemma CommonAtIff(body: string, i: nat)
    requires i < |Split(body, NEWLINE)|
    ensures (exists t :: CommonAt(Split(body, NEWLINE), i, t)) <==> IsCommon(Rows(body)[i])
  {
    var lines, row := Split(body, NEWLINE), Rows(body)[i];
    TrimmedIff(lines[i], row);
    if IsCommon(row) { assert CommonAt(lines, i, row); }
    if t :| CommonAt(lines, i, t) { TrimmedIff(lines[i], t); }
  }

  ghost predicate SomeCommonRow(lines: seq<string>)
  {
    exists i: nat, t :: CommonAt(lines, i, t)
  }

  lemma SomeCommonIff(body: string)
    ensures SomeCommonRow(Split(body, NEWLINE)) <==> exists i :: 0 <= i < |Rows(body)| && IsCommon(Rows(body)[i])
  {
    if SomeCommonRow(Split(body, NEWLINE)) {
      var i: nat, t :| CommonAt(Split(body, NEWLINE), i, t);
      CommonAtIff(body, i);
      assert IsCommon(Rows(body)[i]);
    }
    if i :| 0 <= i < |Rows(body)| && IsCommon(Rows(body)[i]) {
      CommonAtIff(body, i);
    }
  }

  /** The body has a [common] row. */
  lemma HasCommonIff(body: string)
    ensures HasCommon(body) <==> SomeCommonRow(Split(body, NEWLINE))
  {
    AnyIff(Rows(body), IsCommon);
    SomeCommonIff(body);
  }

  // ----- whole histories of uploads

  /** An empty body is refused and leaves the file alone. */
  function UploadAll(content: string, bodies: seq<string>): string
  {
    if bodies == [] then content
    else
      var n := |bodies| - 1;
      var before := UploadAll(content, bodies[..n]);
      if bodies[n] == "" then before else Uploaded(before, bodies[n])
  }

  ghost predicate AllHaveCommon(bodies: seq<string>)
  {
    forall i :: 0 <= i < |bodies| ==> bodies[i] == "" || HasCommon(bodies[i])
  }

  lemma AllHaveCommonSplit(bodies: seq<string>)
    requires bodies != []
    ensures var n := |bodies| - 1;
            AllHaveCommon(bodies) <==> AllHaveCommon(bodies[..n]) && (bodies[n] == "" || HasCommon(bodies[n]))
  {
    var n := |bodies| - 1;
    assert forall i :: 0 <= i < n ==> bodies[..n][i] == bodies[i];
  }

  /** A stored token survives a history of uploads exactly when every accepted body has a [common] row. */
  lemma {:induction false} TokenSurvivesIff(content: string, bodies: seq<string>)
    requires StoredToken(content).Some?
    ensures StoredToken(UploadAll(content, bodies)) == if AllHaveCommon(bodies) then StoredToken(content) else None
  {
    if bodies != [] {
      var n := |bodies| - 1;
      TokenSurvivesIff(content, bodies[..n]);
      AllHaveCommonSplit(bodies);
      TokenAfterUpload(UploadAll(content, bodies[..n]), bodies[n]);
    }
  }

  // ----- the two handlers

  datatype Response = Ok(msg: string) | BadRequest | ServerError

  class AdminService {
    const hasConfigFile: bool
    var content: string  // of the configuration file

    constructor (hasConfigFile: bool, content: string)
      ensures this.hasConfigFile == hasConfigFile && this.content == content
    {
      this.hasConfigFile, this.content := hasConfigFile, content;
    }

    method ApiGetConfig() returns (res: Response)
      ensures res == if hasConfigFile then Ok(Shown(content)) else BadRequest
    {
      if !hasConfigFile {
        return BadRequest;
      }
      var newRows := NonTokenRows(content);
      return Ok(Join(newRows, NEWLINE));
    }

    /**
     body is what could be read of the request; a write that fails may leave anything in the file, since the
     file is truncated first.
     */
    method ApiPutConfig(body: Option<string>, writes: bool, left: string) returns (res: Response)
      modifies this
      ensures res == if !hasConfigFile || body == None || body == Some("") then BadRequest
                     else if writes then Ok("") else ServerError
      ensures content == if res == BadRequest then old(content)
                         else if writes then Uploaded(old(content), body.value) else left
    {
      if body == None {
        return BadRequest;
      }
      if |body.value| == 0 || !hasConfigFile {
        return BadRequest;
      }
      var token := FindToken(content);
      var newRows := NonTokenRows(body.value);
      if token.Some? {
        newRows := WithToken(newRows, token.value);
      }
      if !writes {
        content := left;
        return ServerError;
      }
      assert newRows == Written(content, body.value);
      content := Join(newRows, NEWLINE);
      return Ok("");
    }
  }

  method NonTokenRows(text: string) returns (newRows: seq<string>)
    ensures newRows == Drop(Rows(text), IsToken)
  {
    var lines := Split(text, NEWLINE);
    newRows := [];
    for i := 0 to |lines|
      invariant newRows == Drop(Mapped(lines[..i], TrimSpace), IsToken)
    {
      DropPrefix(lines, i, TrimSpace, IsToken);
      var row := TrimSpace(lines[i]);
      if IsToken(row) {
        continue;
      }
      newRows := newRows + [row];
    }
    TakeAll(lines);
  }

  method FindToken(text: string) returns (token: Option<string>)
    ensures token == StoredToken(text)
  {
    var lines := Split(text, NEWLINE);
    for i := 0 to |lines|
      invariant First(Mapped(lines[..i], TrimSpace), IsToken) == None
    {
      FirstPrefix(lines, i, TrimSpace, IsToken);
      var row := TrimSpace(lines[i]);
      if IsToken(row) {
        return Some(row);
      }
    }
    TakeAll(lines);
    return None;
  }

  method WithToken(rows: seq<string>, token: string) returns (newRows: seq<string>)
    ensures newRows == InsertBehind(rows, IsCommon, token)
  {
    newRows := [];
    for i := 0 to |rows|
      invariant newRows == InsertBehind(rows[..i], IsCommon, token)
    {
      InsertPrefix(rows, i, IsCommon, token);
      newRows := newRows + [rows[i]];
      if IsCommon(rows[i]) {
        newRows := newRows + [token];
      }
    }
    TakeAll(rows);
  }
}
