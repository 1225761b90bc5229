/** The job request serializers (aws_iot_jobs_json.c): a truncating writer, and the requests it prints. */
module JobsJson {
  import opened Basics
  import opened Jsmn
  import opened JsonGrammar
  import opened JsonText
  import opened JsmnParser
  import opened JsmnTree
  import opened JsonLookup

  // ---------------------------------------------------------------- the truncating writer

  /** What snprintf(buf + at, n, "%s", s) leaves in buf: as much of s as fits before a NUL, and nothing for n = 0. */
  function Put(buf: string, at: nat, n: nat, s: string): (r: string)
    requires at + n <= |buf|
    ensures |r| == |buf|
  {
    if n == 0 then buf
    else
      var k := Min(|s|, n - 1);
      buf[..at] + s[..k] + "\0" + buf[at + k + 1..]
  }

  /** Put, character by character. */
  lemma PutAt(buf: string, at: nat, n: nat, s: string, r: string)
    requires at + n <= |buf| == |r| && n > 0
    requires forall j :: 0 <= j < |r| ==>
               r[j] == var k := Min(|s|, n - 1);
                       if at <= j < at + k then s[j - at] else if j == at + k then '\0' else buf[j]
    ensures r == Put(buf, at, n, s)
  {
    var p := Put(buf, at, n, s);
    forall j | 0 <= j < |r|
      ensures r[j] == p[j]
    {
    }
  }

  /** Printing a and then b behind it is printing a + b: the second call starts where a ended if a fitted,
      and is not made at all if it did not. */
  lemma PutTwice(buf: string, n: nat, a: string, b: string)
    requires n <= |buf|
    ensures Put(buf, 0, n, a + b) == if |a| < n then Put(Put(buf, 0, n, a), |a|, n - |a|, b) else Put(buf, 0, n, a)
  {
    if n > 0 && |a| >= n {
      assert (a + b)[..n - 1] == a[..n - 1];
    } else if n > 0 {
      var k := Min(|b|, n - |a| - 1);
      assert (a + b)[..|a| + k] == a + b[..k];
      var once := Put(buf, 0, n, a);
      assert once[..|a|] == a;
      assert once[|a| + k + 1..] == buf[|a| + k + 1..];
    }
  }

  /** What one more call leaves, the first one included. */
  lemma PutAgain(before: string, n: nat, begun: bool, printed: string, s: string, now: string)
    requires n <= |before| == |now| && (!begun ==> printed == "")
    requires now == if begun then Put(before, 0, n, printed) else before
    ensures |printed| <= n ==> Put(now, |printed|, n - |printed|, s) == Put(before, 0, n, printed + s)
    ensures n <= |printed| ==> now == Put(before, 0, n, printed + s)
  {
    PutTwice(before, n, printed, s);
    if !begun { assert printed + s == s; }
  }

  class SerializeState {
    const buffer: array?<char>
    const bufferSize: nat
    var totalSize: int
    var nextPtr: Option<nat>  // offset in the buffer; None is NULL
    var remainingSize: nat
    ghost const before: string  // the buffer as the caller passed it
    ghost var printed: string   // everything printed so far, as if there were room
    ghost var begun: bool

    constructor (buffer: array?<char>, bufferSize: nat)
      requires if buffer == null then bufferSize == 0 else bufferSize <= buffer.Length
      ensures this.buffer == buffer && this.bufferSize == bufferSize
      ensures before == if buffer == null then "" else buffer[..]
      ensures Valid() && printed == "" && !begun && totalSize == 0
    {
      this.buffer, this.bufferSize := buffer, bufferSize;
      totalSize, nextPtr, remainingSize := 0, if buffer == null then None else Some(0), bufferSize;
      before := if buffer == null then "" else buffer[..];
      printed, begun := "", false;
    }

    /** Until a conversion fails: the sum of the lengths, the write position, and a buffer that holds what one
        snprintf of everything printed would have left in it. */
    ghost predicate Valid()
      reads this, buffer
    {
      && (if buffer == null then bufferSize == 0 && before == "" else bufferSize <= buffer.Length == |before|)
      && (totalSize != -1 ==>
            && totalSize == |printed|
            && (nextPtr.Some? ==> buffer != null && nextPtr.value == |printed| <= bufferSize && remainingSize == bufferSize - |printed|)
            && (nextPtr.None? ==> remainingSize == 0 && bufferSize <= |printed|)
            && (buffer != null ==> buffer[..] == if begun then Put(before, 0, bufferSize, printed) else before)
            && (!begun ==> printed == ""))
    }

    /** vsnprintf, for a conversion that succeeds. */
    method Vsnprintf(s: string) returns (len: nat)
      requires nextPtr.Some? ==> buffer != null && nextPtr.value + remainingSize <= buffer.Length
      requires nextPtr.None? ==> remainingSize == 0
      modifies buffer
      ensures len == |s|
      ensures buffer != null ==>
                buffer[..] == if nextPtr.None? then old(buffer[..]) else Put(old(buffer[..]), nextPtr.value, remainingSize, s)
    {
      if remainingSize > 0 {
        var at, k := nextPtr.value, Min(|s|, remainingSize - 1);
        var i := 0;
        ghost var was := buffer[..];
        while i < k
          invariant 0 <= i <= k
          invariant forall j :: 0 <= j < buffer.Length ==> buffer[j] == if at <= j < at + i then s[j - at] else was[j]
        {
          buffer[at + i] := s[i];
          i := i + 1;
        }
        buffer[at + k] := '\0';
        PutAt(was, at, remainingSize, s, buffer[..]);
      }
      return |s|;
    }

    /** The buffer's part of a print: it holds what one snprintf of everything would leave. */
    method Write(s: string)
      requires Valid() && totalSize != -1
      modifies buffer
      ensures buffer != null ==> buffer[..] == Put(before, 0, bufferSize, printed + s)
    {
      hide Put;
      if buffer != null {
        PutAgain(before, bufferSize, begun, printed, s, buffer[..]);
      }
      var _ := Vsnprintf(s);
    }

    /** The fields' part: the total grows, and the position advances or becomes NULL. */
    method Advance(len: nat)
      requires nextPtr.None? ==> remainingSize == 0
      modifies this`totalSize, this`nextPtr, this`remainingSize
      ensures totalSize == old(totalSize) + len
      ensures if old(nextPtr).Some? && old(remainingSize) > len
              then nextPtr == Some(old(nextPtr).value + len) && remainingSize == old(remainingSize) - len
              else nextPtr == None && remainingSize == 0
    {
      totalSize := totalSize + len;
      if nextPtr != None {
        if remainingSize > len {
          remainingSize := remainingSize - len;
          nextPtr := Some(nextPtr.value + len);
        } else {
          remainingSize := 0;
          nextPtr := None;
        }
      }
    }

    /** _printToBuffer; `fails` is vsnprintf reporting an encoding error, after which nothing more is printed. */
    method Print(s: string, fails: bool := false)
      requires Valid()
      modifies this, buffer
      ensures Valid()
      ensures old(totalSize) == -1 || fails ==> totalSize == -1
      ensures old(totalSize) != -1 && !fails ==> totalSize != -1 && begun && printed == old(printed) + s
    {
      hide Put;
      if totalSize == -1 {
        return;
      }
      if fails {
        totalSize := -1;
        return;
      }
      Write(s);
      Advance(|s|);
      printed, begun := printed + s, true;
    }

    method PrintKey(first: bool, key: string)
      requires Valid()
      modifies this, buffer
      ensures Valid() && (old(totalSize) != -1 ==> totalSize != -1 && begun && printed == old(printed) + KeyPiece(first, key))
      ensures old(totalSize) == -1 ==> totalSize == -1
    {
      if first {
        Print("{\"" + key + "\":");
      } else {
        Print(",\"" + key + "\":");
      }
    }

    /** The key and the value of a member, if it is to be printed at all. */
    method PrintMember(present: bool, first: bool, key: string, value: string)
      requires Valid() && totalSize != -1
      modifies this, buffer
      ensures Valid() && totalSize != -1 && printed == old(printed) + Piece(present, first, key, value)
      ensures begun == (old(begun) || present)
    {
      if present {
        PrintKey(first, key);
        Print(value);
      } else {
        assert printed + "" == printed;
      }
    }
  }

  /** A member that is printed only when its field is set. */
  function Piece(present: bool, first: bool, key: string, value: string): string {
    if present then KeyPiece(first, key) + value else ""
  }

  function KeyPiece(first: bool, key: string): string { (if first then "{\"" else ",\"") + key + "\":" }

  // ---------------------------------------------------------------- requests

  datatype Status = NotSet | Queued | InProgress | Failed | Succeeded | Canceled | Rejected | UnknownStatus

  /** aws_iot_jobs_map_status_to_string */
  function StatusText(status: Status): Option<string> {
    match status
    case Queued => Some("QUEUED")
    case InProgress => Some("IN_PROGRESS")
    case Failed => Some("FAILED")
    case Succeeded => Some("SUCCEEDED")
    case Canceled => Some("CANCELED")
    case Rejected => Some("REJECTED")
    case NotSet => None
    case UnknownStatus => None
  }

  /** aws_iot_jobs_map_string_to_job_status: how the same names are read back. */
  function StatusOf(text: string): Status {
    if text == "" then NotSet
    else if text == "QUEUED" then Queued
    else if text == "IN_PROGRESS" then InProgress
    else if text == "FAILED" then Failed
    else if text == "SUCCEEDED" then Succeeded
    else if text == "CANCELED" then Canceled
    else if text == "REJECTED" then Rejected
    else UnknownStatus
  }

  /** A status that has a name is read back from it, so no two share one; and no other text is read as that status. */
  lemma StatusRoundTrip(status: Status, text: string)
    ensures StatusText(status).None? <==> status == NotSet || status == UnknownStatus
    ensures StatusText(status).Some? ==> (StatusOf(text) == status <==> text == StatusText(status).value)
  {
  }

  datatype UpdateRequest = UpdateRequest(
    expectedVersion: int, executionNumber: int, status: Status, statusDetails: Option<string>,
    includeJobExecutionState: bool, includeJobDocument: bool, clientToken: Option<string>)

  datatype StartNextRequest = StartNextRequest(statusDetails: Option<string>, clientToken: Option<string>)

  function Decimal(n: nat): (s: string)
    ensures Digits(s)
  {
    if n < 10 then [('0' as int + n) as char] else Decimal(n / 10) + [('0' as int + n % 10) as char]
  }

  /** %lld */
  function Long(n: int): string { if n < 0 then "-" + Decimal(-n) else Decimal(n) }

  /** The number that decimal digits denote. */
  function Denoted(digits: string): nat
    requires forall i :: 0 <= i < |digits| ==> '0' <= digits[i] <= '9'
  {
    if digits == "" then 0 else 10 * Denoted(digits[..|digits| - 1]) + (digits[|digits| - 1] as int - '0' as int)
  }

  lemma {:induction false} DecimalDenotes(n: nat)
    ensures var s := Decimal(n); Denoted(s) == n && (s[0] == '0' ==> n == 0 && |s| == 1)
  {
    var s := Decimal(n);
    if n >= 10 {
      DecimalDenotes(n / 10);
      assert s[..|s| - 1] == Decimal(n / 10);
    } else {
      assert s[..0] == "";
    }
  }

  /** A printed number has a sign exactly when it is negative, and digits without leading zeros that denote it. */
  lemma LongDenotes(n: int)
    ensures var s := Long(n);
            var digits := if n < 0 then s[1..] else s;
            && (s != "" && s[0] == '-' <==> n < 0)
            && Digits(digits) && (digits[0] == '0' ==> n == 0 && |digits| == 1)
            && Denoted(digits) == if n < 0 then -n else n
  {
    hide Decimal, Denoted;
    DecimalDenotes(if n < 0 then -n else n);
  }

  // ---------------------------------------------------------------- requests as trees

  /** One printed member: its value may have white space around it when the caller supplied it. */
  datatype Field = Field(key: string, gap: string, v: Value, post: string)

  function MembersOf(fields: seq<Field>): Members {
    if fields == [] then NoMembers
    else Member("", fields[0].key, "", fields[0].gap, fields[0].v, fields[0].post, MembersOf(fields[1..]))
  }

  function FieldText(f: Field): string { "\"" + f.key + "\":" + (f.gap + Text(f.v) + f.post) }

  /** The text of fields that follow another one. */
  function Rest(fields: seq<Field>): string {
    if fields == [] then "" else "," + FieldText(fields[0]) + Rest(fields[1..])
  }

  lemma {:induction false} RestConcat(xs: seq<Field>, ys: seq<Field>)
    ensures Rest(xs + ys) == Rest(xs) + Rest(ys)
    decreases |xs|
  {
    if xs == [] {
      assert xs + ys == ys;
    } else {
      assert (xs + ys)[1..] == xs[1..] + ys;
      RestConcat(xs[1..], ys);
    }
  }

  lemma RestOne(f: Field)
    ensures Rest([f]) == "," + FieldText(f)
  {
    assert [f][1..] == [];
  }

  lemma {:induction false} MembersOfText(fields: seq<Field>)
    requires fields != []
    ensures MembersText(MembersOf(fields)) == FieldText(fields[0]) + Rest(fields[1..])
    decreases |fields|
  {
    hide Text, FieldText, MembersText;
    MemberAsField(fields[0], MembersOf(fields[1..]));
    if |fields| > 1 {
      MembersOfText(fields[1..]);
      assert "," + FieldText(fields[1]) + Rest(fields[1..][1..]) == "," + (FieldText(fields[1]) + Rest(fields[1..][1..]));
    }
  }

  /** A member printed with no white space before its key is the text of a field. */
  lemma MemberAsField(f: Field, rest: Members)
    ensures MembersText(Member("", f.key, "", f.gap, f.v, f.post, rest))
            == FieldText(f) + (if rest.NoMembers? then "" else "," + MembersText(rest))
  {
    hide Text;
    var v := Text(f.v);
    var k := "\"" + f.key + "\":";
    assert KeyText(Member("", f.key, "", f.gap, f.v, f.post, rest)) == k + f.gap;
    assert k + f.gap + v + f.post == k + (f.gap + v + f.post);
  }

  /** The tree a request is printed from. */
  function Tree(fields: seq<Field>): Value { Obj("", MembersOf(fields)) }

  predicate LegalField(f: Field) { StringBody(f.key) && Blanks(f.gap) && Legal(f.v) && Blanks(f.post) }

  lemma {:induction false} LegalTree(fields: seq<Field>)
    requires forall i :: 0 <= i < |fields| ==> LegalField(fields[i])
    ensures LegalMembers(MembersOf(fields))
    decreases |fields|
  {
    if fields != [] { LegalTree(fields[1..]); }
  }

  /** The caller's statusDetails, read as a JSON object between white space. */
  datatype Details = Details(before: string, v: Value, after: string)

  ghost predicate Describes(details: Option<string>, d: Details) {
    details.Some? ==> Document(details.value, d.before, d.v, d.after) && d.v.Obj?
  }

  function Optional(set': bool, f: Field): seq<Field> { if set' then [f] else [] }

  function StringField(key: string, value: string): Field { Field(key, "", Str(value), "") }

  function PlainField(key: string, text: string): Field { Field(key, "", Prim(text), "") }

  function DetailsField(d: Details): Field { Field("statusDetails", d.before, d.v, d.after) }

  function Or(o: Option<string>): string { if o.Some? then o.value else "" }

  function UpdateFields(req: UpdateRequest, d: Details): seq<Field>
    requires StatusText(req.status).Some?
  {
    [StringField("status", StatusText(req.status).value)]
    + Optional(req.statusDetails.Some?, DetailsField(d))
    + Optional(req.executionNumber != 0, PlainField("executionNumber", Long(req.executionNumber)))
    + Optional(req.expectedVersion != 0, PlainField("expectedVersion", Long(req.expectedVersion)))
    + Optional(req.includeJobExecutionState, PlainField("includeJobExecutionState", "true"))
    + Optional(req.includeJobDocument, PlainField("includeJobDocument", "true"))
    + Optional(req.clientToken.Some?, StringField("clientToken", Or(req.clientToken)))
  }

  function StartNextFields(req: StartNextRequest, d: Details): seq<Field> {
    Optional(req.statusDetails.Some?, DetailsField(d))
    + Optional(req.clientToken.Some?, StringField("clientToken", Or(req.clientToken)))
  }

  /** What the update serializer prints, piece by piece. */
  function UpdateText(req: UpdateRequest): string
    requires StatusText(req.status).Some?
  {
    Piece(true, true, "status", Quoted(StatusText(req.status).value))
    + Piece(req.statusDetails.Some?, false, "statusDetails", Or(req.statusDetails))
    + Piece(req.executionNumber != 0, false, "executionNumber", Long(req.executionNumber))
    + Piece(req.expectedVersion != 0, false, "expectedVersion", Long(req.expectedVersion))
    + Piece(req.includeJobExecutionState, false, "includeJobExecutionState", "true")
    + Piece(req.includeJobDocument, false, "includeJobDocument", "true")
    + Piece(req.clientToken.Some?, false, "clientToken", Quoted(Or(req.clientToken)))
    + "}"
  }

  function StartNextText(req: StartNextRequest): string {
    Piece(req.statusDetails.Some?, true, "statusDetails", Or(req.statusDetails))
    + Piece(req.clientToken.Some?, req.statusDetails.None?, "clientToken", Quoted(Or(req.clientToken)))
    + (if req.clientToken.None? && req.statusDetails.None? then "{" else "")
    + "}"
  }

  function Boolean(value: bool): string { if value then "true" else "false" }

  /** aws_iot_jobs_json_serialize_update_job_execution_request: the size of the full text, and as much of it in
      the buffer as fits. */
  method SerializeUpdate(requestBuffer: array?<char>, bufferSize: nat, request: UpdateRequest) returns (r: int)
    requires requestBuffer != null ==> bufferSize <= requestBuffer.Length
    modifies requestBuffer
    ensures StatusText(request.status).None? ==> r == -1
    ensures StatusText(request.status).None? && requestBuffer != null ==> requestBuffer[..] == old(requestBuffer[..])
    ensures StatusText(request.status).Some? ==> r == |UpdateText(request)|
    ensures StatusText(request.status).Some? && requestBuffer != null ==>
              requestBuffer[..] == Put(old(requestBuffer[..]), 0, bufferSize, UpdateText(request))
  {
    hide Piece, KeyPiece, Quoted, Long, Put;
    var statusStr := StatusText(request.status);
    if statusStr.None? {
      return -1;
    }
    var state := new SerializeState(requestBuffer, if requestBuffer == null then 0 else bufferSize);
    state.PrintMember(true, true, "status", Quoted(statusStr.value));
    assert "" + Piece(true, true, "status", Quoted(statusStr.value)) == Piece(true, true, "status", Quoted(statusStr.value));
    state.PrintMember(request.statusDetails.Some?, false, "statusDetails", Or(request.statusDetails));
    state.PrintMember(request.executionNumber != 0, false, "executionNumber", Long(request.executionNumber));
    state.PrintMember(request.expectedVersion != 0, false, "expectedVersion", Long(request.expectedVersion));
    var shown := request.includeJobExecutionState;
    PieceFalse("includeJobExecutionState", "true", "false");
    state.PrintMember(shown, false, "includeJobExecutionState", Boolean(shown));
    shown := request.includeJobDocument;
    PieceFalse("includeJobDocument", "true", "false");
    state.PrintMember(shown, false, "includeJobDocument", Boolean(shown));
    state.PrintMember(request.clientToken.Some?, false, "clientToken", Quoted(Or(request.clientToken)));
    state.Print("}");
    return state.totalSize;
  }

  lemma PieceFalse(key: string, a: string, b: string)
    ensures Piece(false, false, key, a) == Piece(false, false, key, b)
  {
  }

  /** aws_iot_jobs_json_serialize_start_next_job_execution_request */
  method SerializeStartNext(requestBuffer: array?<char>, bufferSize: nat, request: StartNextRequest) returns (r: int)
    requires requestBuffer != null ==> bufferSize <= requestBuffer.Length
    modifies requestBuffer
    ensures r == |StartNextText(request)|
    ensures requestBuffer != null ==>
              requestBuffer[..] == Put(old(requestBuffer[..]), 0, bufferSize, StartNextText(request))
  {
    hide Piece, KeyPiece, Quoted, Put;
    var state := new SerializeState(requestBuffer, if requestBuffer == null then 0 else bufferSize);
    var first := Piece(request.statusDetails.Some?, true, "statusDetails", Or(request.statusDetails));
    state.PrintMember(request.statusDetails.Some?, true, "statusDetails", Or(request.statusDetails));
    assert "" + first == first;
    state.PrintMember(request.clientToken.Some?, request.statusDetails.None?, "clientToken", Quoted(Or(request.clientToken)));
    if request.clientToken.None? && request.statusDetails.None? {
      state.Print("{");
    } else {
      assert state.printed + "" == state.printed;
    }
    state.Print("}");
    return state.totalSize;
  }

  // ---------------------------------------------------------------- print, tokenize, look up

  lemma PieceIsRest(present: bool, f: Field, value: string)
    requires present ==> value == f.gap + Text(f.v) + f.post
    ensures Piece(present, false, f.key, value) == Rest(Optional(present, f))
  {
    hide Text;
    if present { RestOne(f); }
  }

  lemma PieceIsFirst(f: Field, value: string)
    requires value == f.gap + Text(f.v) + f.post
    ensures Piece(true, true, f.key, value) == "{" + FieldText(f)
  {
    hide Text;
  }

  lemma TreeText(fields: seq<Field>)
    requires fields != []
    ensures Text(Tree(fields)) == "{" + FieldText(fields[0]) + Rest(fields[1..]) + "}"
  {
    hide FieldText, Rest;
    MembersOfText(fields);
    assert Text(Tree(fields)) == "{" + "" + MembersText(MembersOf(fields)) + "}";
  }

  lemma RestSix(o1: seq<Field>, o2: seq<Field>, o3: seq<Field>, o4: seq<Field>, o5: seq<Field>, o6: seq<Field>)
    ensures Rest(o1 + o2 + o3 + o4 + o5 + o6) == Rest(o1) + Rest(o2) + Rest(o3) + Rest(o4) + Rest(o5) + Rest(o6)
  {
    hide Rest;
    RestConcat(o1, o2);
    RestConcat(o1 + o2, o3);
    RestConcat(o1 + o2 + o3, o4);
    RestConcat(o1 + o2 + o3 + o4, o5);
    RestConcat(o1 + o2 + o3 + o4 + o5, o6);
  }

  lemma FieldsInOrder(f0: Field, o1: seq<Field>, o2: seq<Field>, o3: seq<Field>, o4: seq<Field>, o5: seq<Field>, o6: seq<Field>)
    ensures var fields := [f0] + o1 + o2 + o3 + o4 + o5 + o6;
            fields != [] && fields[0] == f0 && fields[1..] == o1 + o2 + o3 + o4 + o5 + o6
  {
  }

  /** The pieces of an update, as the texts of its fields. */
  lemma UpdatePieces(req: UpdateRequest, d: Details)
    requires StatusText(req.status).Some? && Describes(req.statusDetails, d)
    ensures UpdateText(req) ==
              "{" + FieldText(StringField("status", StatusText(req.status).value))
              + Rest(Optional(req.statusDetails.Some?, DetailsField(d)))
              + Rest(Optional(req.executionNumber != 0, PlainField("executionNumber", Long(req.executionNumber))))
              + Rest(Optional(req.expectedVersion != 0, PlainField("expectedVersion", Long(req.expectedVersion))))
              + Rest(Optional(req.includeJobExecutionState, PlainField("includeJobExecutionState", "true")))
              + Rest(Optional(req.includeJobDocument, PlainField("includeJobDocument", "true")))
              + Rest(Optional(req.clientToken.Some?, StringField("clientToken", Or(req.clientToken))))
              + "}"
  {
    hide Text, FieldText, Rest, Piece, Quoted, Document, Long, Optional;
    var status := StatusText(req.status).value;
    StringFieldText("status", status);
    DetailsFieldText(req.statusDetails, d);
    PlainFieldText("executionNumber", Long(req.executionNumber));
    PlainFieldText("expectedVersion", Long(req.expectedVersion));
    PlainFieldText("includeJobExecutionState", "true");
    PlainFieldText("includeJobDocument", "true");
    StringFieldText("clientToken", Or(req.clientToken));
    PieceIsFirst(StringField("status", status), Quoted(status));
    PieceIsRest(req.statusDetails.Some?, DetailsField(d), Or(req.statusDetails));
    PieceIsRest(req.executionNumber != 0, PlainField("executionNumber", Long(req.executionNumber)), Long(req.executionNumber));
    PieceIsRest(req.expectedVersion != 0, PlainField("expectedVersion", Long(req.expectedVersion)), Long(req.expectedVersion));
    PieceIsRest(req.includeJobExecutionState, PlainField("includeJobExecutionState", "true"), "true");
    PieceIsRest(req.includeJobDocument, PlainField("includeJobDocument", "true"), "true");
    PieceIsRest(req.clientToken.Some?, StringField("clientToken", Or(req.clientToken)), Quoted(Or(req.clientToken)));
  }

  lemma Regroup(a: string, r1: string, r2: string, r3: string, r4: string, r5: string, r6: string)
    ensures a + (r1 + r2 + r3 + r4 + r5 + r6) == a + r1 + r2 + r3 + r4 + r5 + r6
  {
  }

  /** The update serializer prints the text of a tree. */
  lemma UpdateTextIsTree(req: UpdateRequest, d: Details)
    requires StatusText(req.status).Some? && Describes(req.statusDetails, d)
    ensures UpdateText(req) == Text(Tree(UpdateFields(req, d)))
  {
    hide Text, FieldText, Rest, Tree, Document, Long, Optional, UpdateText;
    var f0 := StringField("status", StatusText(req.status).value);
    var o1 := Optional(req.statusDetails.Some?, DetailsField(d));
    var o2 := Optional(req.executionNumber != 0, PlainField("executionNumber", Long(req.executionNumber)));
    var o3 := Optional(req.expectedVersion != 0, PlainField("expectedVersion", Long(req.expectedVersion)));
    var o4 := Optional(req.includeJobExecutionState, PlainField("includeJobExecutionState", "true"));
    var o5 := Optional(req.includeJobDocument, PlainField("includeJobDocument", "true"));
    var o6 := Optional(req.clientToken.Some?, StringField("clientToken", Or(req.clientToken)));
    UpdatePieces(req, d);
    RestSix(o1, o2, o3, o4, o5, o6);
    Regroup("{" + FieldText(f0), Rest(o1), Rest(o2), Rest(o3), Rest(o4), Rest(o5), Rest(o6));
    FieldsInOrder(f0, o1, o2, o3, o4, o5, o6);
    TreeText(UpdateFields(req, d));
  }

  /** How the values of request fields are spelled. */
  lemma StringFieldText(key: string, value: string)
    ensures var f := StringField(key, value); f.gap + Text(f.v) + f.post == Quoted(value)
  {
  }

  lemma PlainFieldText(key: string, text: string)
    ensures var f := PlainField(key, text); f.gap + Text(f.v) + f.post == text
  {
  }

  lemma DetailsFieldText(details: Option<string>, d: Details)
    requires Describes(details, d)
    ensures var f := DetailsField(d); details.Some? ==> Or(details) == f.gap + Text(f.v) + f.post
  {
  }

  lemma StartNextTextIsTree(req: StartNextRequest, d: Details)
    requires Describes(req.statusDetails, d)
    ensures StartNextText(req) == Text(Tree(StartNextFields(req, d)))
  {
    hide FieldText, Rest, Piece, Tree, Quoted, Document;
    var f1, f2 := DetailsField(d), StringField("clientToken", Or(req.clientToken));
    var fields := StartNextFields(req, d);
    DetailsFieldText(req.statusDetails, d);
    StringFieldText("clientToken", Or(req.clientToken));
    if req.statusDetails.Some? {
      PieceIsFirst(f1, Or(req.statusDetails));
      PieceIsRest(req.clientToken.Some?, f2, Quoted(Or(req.clientToken)));
      assert fields[1..] == Optional(req.clientToken.Some?, f2);
      TreeText(fields);
    } else if req.clientToken.Some? {
      PieceIsFirst(f2, Quoted(Or(req.clientToken)));
      assert fields[1..] == [];
      assert Rest([]) == "" by { RestNone(); }
      assert Piece(false, true, "statusDetails", Or(req.statusDetails)) == "" by { PieceNone("statusDetails", Or(req.statusDetails)); }
      TreeText(fields);
    } else {
      NothingSet(req);
    }
  }

  lemma RestNone()
    ensures Rest([]) == ""
  {
  }

  lemma PieceNone(key: string, value: string)
    ensures Piece(false, true, key, value) == ""
  {
  }

  lemma NothingSet(req: StartNextRequest)
    requires req.statusDetails.None? && req.clientToken.None?
    ensures StartNextText(req) == "{}" == Text(Tree([]))
  {
    assert Text(Tree([])) == "{" + "" + "" + "}";
  }

  // What a lookup should find, read off the request itself.

  function When(set': bool, v: Value): Option<Value> { if set' then Some(v) else None }

  function UpdateValue(req: UpdateRequest, d: Details, key: string): Option<Value>
    requires StatusText(req.status).Some?
  {
    if key == "status" then Some(Str(StatusText(req.status).value))
    else if key == "statusDetails" then When(req.statusDetails.Some?, d.v)
    else if key == "executionNumber" then When(req.executionNumber != 0, Prim(Long(req.executionNumber)))
    else if key == "expectedVersion" then When(req.expectedVersion != 0, Prim(Long(req.expectedVersion)))
    else if key == "includeJobExecutionState" then When(req.includeJobExecutionState, Prim("true"))
    else if key == "includeJobDocument" then When(req.includeJobDocument, Prim("true"))
    else if key == "clientToken" then When(req.clientToken.Some?, Str(Or(req.clientToken)))
    else None
  }

  function StartNextValue(req: StartNextRequest, d: Details, key: string): Option<Value> {
    if key == "statusDetails" then When(req.statusDetails.Some?, d.v)
    else if key == "clientToken" then When(req.clientToken.Some?, Str(Or(req.clientToken)))
    else None
  }

  lemma {:induction false} ValueOfConcat(xs: seq<Field>, ys: seq<Field>, key: string)
    ensures var a := ValueOf(MembersOf(xs), key);
            ValueOf(MembersOf(xs + ys), key) == if a.Some? then a else ValueOf(MembersOf(ys), key)
    decreases |xs|
  {
    if xs == [] {
      assert xs + ys == ys;
    } else {
      assert (xs + ys)[1..] == xs[1..] + ys;
      ValueOfConcat(xs[1..], ys, key);
    }
  }

  lemma ValueOfOptional(set': bool, f: Field, key: string)
    ensures ValueOf(MembersOf(Optional(set', f)), key) == When(set' && f.key == key, f.v)
  {
    assert ValueOf(NoMembers, key) == None;
    assert [f][1..] == [];
  }

  lemma UpdateFieldsValue(req: UpdateRequest, d: Details, key: string)
    requires StatusText(req.status).Some?
    ensures ValueOf(MembersOf(UpdateFields(req, d)), key) == UpdateValue(req, d, key)
  {
    hide ValueOf, MembersOf, Optional;
    var f0 := StringField("status", StatusText(req.status).value);
    var f1 := DetailsField(d);
    var f2 := PlainField("executionNumber", Long(req.executionNumber));
    var f3 := PlainField("expectedVersion", Long(req.expectedVersion));
    var f4 := PlainField("includeJobExecutionState", "true");
    var f5 := PlainField("includeJobDocument", "true");
    var f6 := StringField("clientToken", Or(req.clientToken));
    var o1 := Optional(req.statusDetails.Some?, f1);
    var o2 := Optional(req.executionNumber != 0, f2);
    var o3 := Optional(req.expectedVersion != 0, f3);
    var o4 := Optional(req.includeJobExecutionState, f4);
    var o5 := Optional(req.includeJobDocument, f5);
    var o6 := Optional(req.clientToken.Some?, f6);
    ValueOfOptional(true, f0, key);
    OptionalSet(f0);
    ValueOfOptional(req.statusDetails.Some?, f1, key);
    ValueOfOptional(req.executionNumber != 0, f2, key);
    ValueOfOptional(req.expectedVersion != 0, f3, key);
    ValueOfOptional(req.includeJobExecutionState, f4, key);
    ValueOfOptional(req.includeJobDocument, f5, key);
    ValueOfOptional(req.clientToken.Some?, f6, key);
    ValueOfConcat([f0], o1, key);
    ValueOfConcat([f0] + o1, o2, key);
    ValueOfConcat([f0] + o1 + o2, o3, key);
    ValueOfConcat([f0] + o1 + o2 + o3, o4, key);
    ValueOfConcat([f0] + o1 + o2 + o3 + o4, o5, key);
    ValueOfConcat([f0] + o1 + o2 + o3 + o4 + o5, o6, key);
    assert "executionNumber"[1] != "expectedVersion"[1] || "executionNumber"[2] != "expectedVersion"[2];
  }

  lemma OptionalSet(f: Field)
    ensures Optional(true, f) == [f]
  {
  }

  lemma StartNextFieldsValue(req: StartNextRequest, d: Details, key: string)
    ensures ValueOf(MembersOf(StartNextFields(req, d)), key) == StartNextValue(req, d, key)
  {
    hide ValueOf, MembersOf, Optional;
    var f1, f2 := DetailsField(d), StringField("clientToken", Or(req.clientToken));
    ValueOfOptional(req.statusDetails.Some?, f1, key);
    ValueOfOptional(req.clientToken.Some?, f2, key);
    ValueOfConcat(Optional(req.statusDetails.Some?, f1), Optional(req.clientToken.Some?, f2), key);
  }

  /** A text stands at the front of a buffer, ended by a NUL or the end of the buffer. */
  ghost predicate TextAt(js: string, text: string) {
    At(js, 0, text) && TextEnds(js, |text|)
  }

  /** The text of a tree, n characters long at the front of js, tokenized into the front of an array and searched from
      its root: a key of the tree is found with its value's text, and any other key gives NULL as long as some
      later slot starts late enough. */
  ghost predicate LooksUp(js: string, n: nat, slots: nat, rest: seq<Token>, key: string, answer: Option<Value>) {
    var parsed := Parse(BackwardScan, js, Slots(slots), Start);
    var toks := parsed.s.toks + rest;
    && parsed.code == |parsed.s.toks| > 0
    && toks[0].size >= 0
    && var r := FindToken(js, key, toks, 0);
       match answer
       case Some(v) => r.Found? && Shows(js, toks, r.index, v)
       case None =>
         && !r.Found?
         && ((exists j :: 0 <= j < |rest| && rest[j].start >= n) ==> r == Absent)
  }

  lemma {:induction false} LastEndInText(build: Build, ms: Members, at: nat)
    requires ms.Member?
    ensures LastEnd(build, ms, at) <= at + |MembersText(ms)|
    decreases ms
  {
    hide Text, KeyText, Tokens, Within, MembersText;
    SpanOfValue(build, ms.v, ValueAt(ms, at), 0, -1);
    UnfoldMembers(build, ms, at, 0, -1);
    if ms.rest.Member? { LastEndInText(build, ms.rest, RestAt(ms, at)); }
  }

  lemma LookUpInTree(js: string, fields: seq<Field>, slots: nat, rest: seq<Token>, key: string)
    requires AllLegal(fields) && TextAt(js, Text(Tree(fields)))
    requires |Tokens(BackwardScan, Tree(fields), 0, 0, -1)| <= slots
    ensures LooksUp(js, |Text(Tree(fields))|, slots, rest, key, ValueOf(MembersOf(fields), key))
  {
    hide LegalField, MembersOf, Tokens, LegalMembers, MembersText, FindToken, Shows, ValueOf, LastEnd, At;
    var v := Tree(fields);
    var toks := Tokens(BackwardScan, v, 0, 0, -1);
    LegalTree(fields);
    assert "" + Text(v) + "" == Text(v);
    ParseTerminated(BackwardScan, js, "", v, "", slots);
    RootToken(v);
    assert (toks + rest)[0..|toks|] == toks;
    FindTokenInObject(BackwardScan, js, key, v, 0, 0, -1, toks + rest);
    if MembersOf(fields).Member? { LastEndInText(BackwardScan, MembersOf(fields), 1); }
    forall j | 0 <= j < |rest| ensures rest[j] == (toks + rest)[|toks| + j] {}
  }

  lemma RootToken(v: Value)
    requires v.Obj?
    ensures var toks := Tokens(BackwardScan, v, 0, 0, -1); |toks| > 0 && toks[0].size >= 0
  {
  }

  lemma LongIsPrimitive(n: int)
    ensures PrimitiveText(Long(n))
  {
    NumberCharsArePrimitive(Long(n));
  }

  /** What an update request asks of its caller: a known status, a JSON object for statusDetails, and a token that
      needs no escaping. */
  ghost predicate LegalUpdate(req: UpdateRequest, d: Details) {
    && StatusText(req.status).Some? && Describes(req.statusDetails, d)
    && (req.clientToken.Some? ==> StringBody(req.clientToken.value))
  }

  /** Print, tokenize, look up: findToken on the tokens of a serialized update request returns the printed value
      of each field that was set, and nothing for any other key - in particular for keys inside statusDetails.
      The text may stand alone or at the front of a buffer, ended by a NUL. */
  lemma UpdateRoundTrip(js: string, req: UpdateRequest, d: Details, slots: nat, rest: seq<Token>, key: string)
    requires LegalUpdate(req, d) && TextAt(js, UpdateText(req))
    requires |Tokens(BackwardScan, Tree(UpdateFields(req, d)), 0, 0, -1)| <= slots
    ensures LooksUp(js, |UpdateText(req)|, slots, rest, key, UpdateValue(req, d, key))
  {
    hide LooksUp, UpdateText, UpdateValue, Tokens, Text, Long, TextAt;
    UpdateFieldsLegal(req, d);
    UpdateTextIsTree(req, d);
    UpdateFieldsValue(req, d, key);
    LookUpInTree(js, UpdateFields(req, d), slots, rest, key);
  }

  /** A text that fits with its NUL stands at the front of the buffer. */
  lemma PutHoldsText(buf: string, n: nat, text: string)
    requires |text| < n <= |buf|
    ensures TextAt(Put(buf, 0, n, text), text)
  {
  }

  /** The request is serialized into a buffer and the buffer tokenized: the tokens stand in front of what the array
      held behind them. */
  method SerializeAndParse(buffer: array<char>, tokens: array<Token>, request: UpdateRequest, ghost d: Details)
    requires LegalUpdate(request, d) && |UpdateText(request)| < buffer.Length
    requires |Tokens(BackwardScan, Tree(UpdateFields(request, d)), 0, 0, -1)| <= tokens.Length
    modifies buffer, tokens
    ensures TextAt(buffer[..], UpdateText(request))
    ensures var toks := Tokens(BackwardScan, Tree(UpdateFields(request, d)), 0, 0, -1);
            && Parse(BackwardScan, buffer[..], Slots(tokens.Length), Start).s.toks == toks
            && tokens[..] == toks + old(tokens[..])[|toks|..]
  {
    hide UpdateText, UpdateFields, Tokens, Put, TextAt, Jsmn.Parse;
    ghost var was := tokens[..];
    var size := SerializeUpdate(buffer, buffer.Length, request);
    PutHoldsText(old(buffer[..]), buffer.Length, UpdateText(request));
    var parser := new Parser(BackwardScan);
    var count := parser.Parse(buffer[..], tokens, tokens.Length);
    UpdateNodes(buffer[..], request, d, tokens.Length);
    assert tokens[..] == tokens[..parser.toknext] + was[parser.toknext..];
  }

  /** All of it in place: the root of what was serialized and tokenized is searched. */
  method SerializeAndFind(buffer: array<char>, tokens: array<Token>, request: UpdateRequest, ghost d: Details, key: string)
    returns (index: int)
    requires LegalUpdate(request, d) && |UpdateText(request)| < buffer.Length
    requires |Tokens(BackwardScan, Tree(UpdateFields(request, d)), 0, 0, -1)| <= tokens.Length
    requires UpdateValue(request, d, key).None? ==>
               exists j :: |Tokens(BackwardScan, Tree(UpdateFields(request, d)), 0, 0, -1)| <= j < tokens.Length
                           && tokens[j].start >= |UpdateText(request)|
    modifies buffer, tokens
    ensures match UpdateValue(request, d, key)
            case Some(v) => index >= 0 && Shows(buffer[..], tokens[..], index, v)
            case None => index == -1
  {
    hide UpdateText, UpdateValue, UpdateFields, Tokens, TextAt, Shows, FindToken, Jsmn.Parse;
    ghost var was, n := tokens[..], |Tokens(BackwardScan, Tree(UpdateFields(request, d)), 0, 0, -1)|;
    SerializeAndParse(buffer, tokens, request, d);
    UpdateRoundTrip(buffer[..], request, d, tokens.Length, was[n..], key);
    assert forall j :: n <= j < tokens.Length ==> was[j] == was[n..][j - n];
    index := FindTokenInArray(buffer[..], key, tokens, 0);
  }

  lemma UpdateNodes(js: string, req: UpdateRequest, d: Details, slots: nat)
    requires LegalUpdate(req, d) && TextAt(js, UpdateText(req))
    requires |Tokens(BackwardScan, Tree(UpdateFields(req, d)), 0, 0, -1)| <= slots
    ensures Parse(BackwardScan, js, Slots(slots), Start).s.toks == Tokens(BackwardScan, Tree(UpdateFields(req, d)), 0, 0, -1)
  {
    hide UpdateText, Tokens, Text, At, LegalField, MembersOf;
    UpdateFieldsLegal(req, d);
    UpdateTextIsTree(req, d);
    LegalTree(UpdateFields(req, d));
    var v := Tree(UpdateFields(req, d));
    assert "" + Text(v) + "" == Text(v);
    ParseTerminated(BackwardScan, js, "", v, "", slots);
  }

  ghost predicate AllLegal(fields: seq<Field>) { forall i :: 0 <= i < |fields| ==> LegalField(fields[i]) }

  lemma LegalAppend(fields: seq<Field>, set': bool, f: Field)
    requires AllLegal(fields) && (set' ==> LegalField(f))
    ensures AllLegal(fields + Optional(set', f))
  {
    hide LegalField;
  }

  lemma LegalText(f: Field)
    requires f.gap == "" && f.post == "" && StringBody(f.key)
    requires (f.v.Str? && StringBody(f.v.body)) || (f.v.Prim? && PrimitiveText(f.v.text))
    ensures LegalField(f)
  {
    hide StringBody, PrimitiveText;
  }

  lemma DetailsLegal(details: Option<string>, d: Details)
    requires Describes(details, d)
    ensures details.Some? ==> LegalField(DetailsField(d))
  {
    PlainBody("statusDetails");
  }

  lemma UpdateFieldsLegal(req: UpdateRequest, d: Details)
    requires StatusText(req.status).Some? && Describes(req.statusDetails, d)
    requires req.clientToken.Some? ==> StringBody(req.clientToken.value)
    ensures AllLegal(UpdateFields(req, d))
  {
    hide Long, PrimitiveText, StringBody, Optional, LegalField, AllLegal, Describes;
    LongIsPrimitive(req.executionNumber);
    LongIsPrimitive(req.expectedVersion);
    TrueIsPrimitive();
    NamesLegal(req.status);
    var f0 := StringField("status", StatusText(req.status).value);
    var f2 := PlainField("executionNumber", Long(req.executionNumber));
    var f3 := PlainField("expectedVersion", Long(req.expectedVersion));
    var f4 := PlainField("includeJobExecutionState", "true");
    var f5 := PlainField("includeJobDocument", "true");
    var f6 := StringField("clientToken", Or(req.clientToken));
    LegalText(f0);
    DetailsLegal(req.statusDetails, d);
    LegalText(f2);
    LegalText(f3);
    LegalText(f4);
    LegalText(f5);
    if req.clientToken.Some? { LegalText(f6); }
    LegalFirst(f0);
    var fields := [f0];
    LegalAppend(fields, req.statusDetails.Some?, DetailsField(d));
    fields := fields + Optional(req.statusDetails.Some?, DetailsField(d));
    LegalAppend(fields, req.executionNumber != 0, f2);
    fields := fields + Optional(req.executionNumber != 0, f2);
    LegalAppend(fields, req.expectedVersion != 0, f3);
    fields := fields + Optional(req.expectedVersion != 0, f3);
    LegalAppend(fields, req.includeJobExecutionState, f4);
    fields := fields + Optional(req.includeJobExecutionState, f4);
    LegalAppend(fields, req.includeJobDocument, f5);
    fields := fields + Optional(req.includeJobDocument, f5);
    LegalAppend(fields, req.clientToken.Some?, f6);
  }

  lemma LegalFirst(f: Field)
    requires LegalField(f)
    ensures AllLegal([f])
  {
  }

  /** The names and status values the serializers use need no escaping. */
  lemma NamesLegal(status: Status)
    ensures StringBody("status") && StringBody("statusDetails") && StringBody("executionNumber") && StringBody("expectedVersion")
    ensures StringBody("includeJobExecutionState") && StringBody("includeJobDocument") && StringBody("clientToken")
    ensures StatusText(status).Some? ==> StringBody(StatusText(status).value)
  {
    hide StringBody;
    StatusNamesLegal();
    VersionNamesLegal();
    IncludeNamesLegal();
    StatusLegal(status);
  }

  lemma StatusNamesLegal()
    ensures StringBody("status") && StringBody("statusDetails") && StringBody("clientToken")
  {
    hide StringBody;
    PlainBody("status");
    PlainBody("statusDetails");
    PlainBody("clientToken");
  }

  lemma VersionNamesLegal()
    ensures StringBody("executionNumber") && StringBody("expectedVersion")
  {
    hide StringBody;
    PlainBody("executionNumber");
    PlainBody("expectedVersion");
  }

  lemma IncludeNamesLegal()
    ensures StringBody("includeJobExecutionState") && StringBody("includeJobDocument")
  {
    hide StringBody;
    IncludeStateLegal();
    PlainBody("includeJobDocument");
  }

  lemma IncludeStateLegal()
    ensures StringBody("includeJobExecutionState")
  {
    hide StringBody;
    PlainBody("includeJobExecutionState");
  }

  lemma StatusLegal(status: Status)
    ensures StatusText(status).Some? ==> StringBody(StatusText(status).value)
  {
    hide StringBody;
    if StatusText(status).Some? { PlainBody(StatusText(status).value); }
  }

  predicate Plain(s: string) {
    forall i :: 0 <= i < |s| ==> s[i] != '\"' && s[i] != '\\' && s[i] != '\0'
  }

  lemma TrueIsPrimitive()
    ensures PrimitiveText("true")
  {
  }

  lemma {:induction false} PlainBody(s: string)
    requires Plain(s)
    ensures StringBody(s)
    decreases |s|
  {
    if s != "" { PlainBody(s[1..]); }
  }

  lemma StartNextRoundTrip(js: string, req: StartNextRequest, d: Details, slots: nat, rest: seq<Token>, key: string)
    requires Describes(req.statusDetails, d) && TextAt(js, StartNextText(req))
    requires req.clientToken.Some? ==> StringBody(req.clientToken.value)
    requires |Tokens(BackwardScan, Tree(StartNextFields(req, d)), 0, 0, -1)| <= slots
    ensures LooksUp(js, |StartNextText(req)|, slots, rest, key, StartNextValue(req, d, key))
  {
    hide LooksUp, StartNextText, StartNextValue, Tokens, Text, TextAt, StringBody, LegalField, Optional, Describes;
    NamesLegal(NotSet);
    DetailsLegal(req.statusDetails, d);
    var f2 := StringField("clientToken", Or(req.clientToken));
    if req.clientToken.Some? { LegalText(f2); }
    assert AllLegal([]);
    LegalAppend([], req.statusDetails.Some?, DetailsField(d));
    LegalAppend([] + Optional(req.statusDetails.Some?, DetailsField(d)), req.clientToken.Some?, f2);
    assert [] + Optional(req.statusDetails.Some?, DetailsField(d)) == Optional(req.statusDetails.Some?, DetailsField(d));
    StartNextTextIsTree(req, d);
    StartNextFieldsValue(req, d, key);
    LookUpInTree(js, StartNextFields(req, d), slots, rest, key);
  }
}
