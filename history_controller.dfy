/**
 * The history endpoints that store a generated file and a chat message
 * (backend/controllers/historyController.ts).
 *
 * The Supabase calls are replaced by their outcomes, given as parameters: the upload's
 * error message, the public URL, and whether the insert failed. The handler's result is
 * the HTTP response together with the writes it requested, in order. `Date.now()` is
 * the parameter `nowMs`.
 */
module HistoryController {

  import opened Wrappers
  import opened Text

  // --- file name sanitisation

  /** The characters `[a-zA-Z0-9.-]` that the file name may keep. */
  predicate IsAllowed(c: char) {
    ('a' <= c <= 'z') || ('A' <= c <= 'Z') || ('0' <= c <= '9') || c == '.' || c == '-'
  }

  /** What a sanitised name is made of: allowed characters and the replacement `_`. */
  predicate IsSafe(c: char) {
    IsAllowed(c) || c == '_'
  }

  predicate AllSafe(s: string) {
    forall i :: 0 <= i < |s| ==> IsSafe(s[i])
  }

  /**
   * The replacement for one character. The regular expression has no `u` flag, so it
   * matches UTF-16 code units: a character outside the Basic Multilingual Plane is two
   * surrogates, and each becomes `_`.
   */
  function SanitizeChar(c: char): (r: string)
    ensures |r| == Utf16Length([c]) && AllSafe(r)
  {
    if IsAllowed(c) then [c] else if c as int > 0xFFFF then "__" else "_"
  }

  /** `fileName.replace(/[^a-zA-Z0-9.-]/g, '_')`. */
  function Sanitize(s: string): (r: string)
    ensures AllSafe(r)
    ensures |r| == Utf16Length(s)
  {
    if s == [] then [] else SanitizeChar(s[0]) + Sanitize(s[1..])
  }

  /** A name made only of allowed characters and `_` is left as it is. */
  lemma {:induction false} SanitizeKeepsSafe(s: string)
    requires AllSafe(s)
    ensures Sanitize(s) == s
  {
    if s != [] {
      assert AllSafe(s[1..]) by {
        forall i | 0 <= i < |s[1..]| ensures IsSafe(s[1..][i]) {
          assert s[1..][i] == s[i + 1];
        }
      }
      SanitizeKeepsSafe(s[1..]);
      assert s == [s[0]] + s[1..];
    }
  }

  /** Sanitising twice is sanitising once. */
  lemma SanitizeIdempotent(s: string)
    ensures Sanitize(Sanitize(s)) == Sanitize(s)
  {
    SanitizeKeepsSafe(Sanitize(s));
  }

  /** Sanitisation works character by character: it distributes over concatenation. */
  lemma {:induction false} SanitizeAppend(a: string, b: string)
    ensures Sanitize(a + b) == Sanitize(a) + Sanitize(b)
  {
    if a != [] {
      assert (a + b)[0] == a[0] && (a + b)[1..] == a[1..] + b;
      SanitizeAppend(a[1..], b);
    } else {
      assert a + b == b;
    }
  }

  /**
   * In JavaScript's own measure the sanitised name is as long as the original, and at each
   * position of the original the allowed character survives while any other becomes `_`:
   * the sanitised name is the original with its code units outside `[a-zA-Z0-9.-]`
   * replaced, one for one.
   */
  lemma SanitizePositions(s: string, k: nat)
    requires k < |s|
    ensures var at := Utf16Length(s[..k]);
      && at < |Sanitize(s)|
      && Utf16Length(Sanitize(s)) == Utf16Length(s)
      && (IsAllowed(s[k]) ==> Sanitize(s)[at] == s[k])
      && (!IsAllowed(s[k]) ==> Sanitize(s)[at] == '_')
  {
    assert s == s[..k] + ([s[k]] + s[k + 1..]);
    SanitizeAppend(s[..k], [s[k]] + s[k + 1..]);
    SanitizeAppend([s[k]], s[k + 1..]);
    assert Sanitize([s[k]]) == SanitizeChar(s[k]);
    SafeUtf16(Sanitize(s));
  }

  /** Allowed characters and `_` are single UTF-16 code units. */
  lemma {:induction false} SafeUtf16(s: string)
    requires AllSafe(s)
    ensures Utf16Length(s) == |s|
  {
    if s != [] {
      assert AllSafe(s[1..]) by {
        forall i | 0 <= i < |s[1..]| ensures IsSafe(s[1..][i]) {
          assert s[1..][i] == s[i + 1];
        }
      }
      SafeUtf16(s[1..]);
    }
  }

  // --- the storage path

  type UserId = string

  /** `${userId}/${Date.now()}_${sanitizedFileName}`. */
  function StoragePath(userId: UserId, nowMs: nat, fileName: string): string {
    userId + "/" + NatToString(nowMs) + "_" + Sanitize(fileName)
  }

  /**
   * Whatever the file name, the path has the user id as its directory and
   * `<timestamp>_<sanitised name>` as its last segment: the name cannot add a directory.
   */
  lemma StoragePathSegments(userId: UserId, nowMs: nat, fileName: string)
    ensures var p := StoragePath(userId, nowMs, fileName);
      && LastSegment(p, '/') == NatToString(nowMs) + "_" + Sanitize(fileName)
      && '/' in p && BeforeLast(p, '/') == userId
  {
    var t := NatToString(nowMs) + "_" + Sanitize(fileName);
    var p := StoragePath(userId, nowMs, fileName);
    assert p == userId + ['/'] + t;
    SafeConcat(NatToString(nowMs), "_");
    SafeConcat(NatToString(nowMs) + "_", Sanitize(fileName));
    assert '/' !in t by {
      forall i | 0 <= i < |t| ensures t[i] != '/' {
        assert IsSafe(t[i]);
      }
    }
    LastSegmentAfter(userId, '/', t);
    BeforeSeparator(userId, t, '/');
  }

  lemma SafeConcat(a: string, b: string)
    requires (forall i :: 0 <= i < |a| ==> '0' <= a[i] <= '9') || AllSafe(a)
    requires AllSafe(b)
    ensures AllSafe(a + b)
  {
    forall i | 0 <= i < |a + b| ensures IsSafe((a + b)[i]) {
      if i < |a| {
        assert (a + b)[i] == a[i];
      } else {
        assert (a + b)[i] == b[i - |a|];
      }
    }
  }

  /** What precedes a final separator is exactly the text before it. */
  lemma BeforeSeparator(u: string, t: string, sep: char)
    requires LastSegment(u + [sep] + t, sep) == t
    ensures sep in u + [sep] + t && BeforeLast(u + [sep] + t, sep) == u
  {
    var p := u + [sep] + t;
    assert p[|u|] == sep;
    var b := BeforeLast(p, sep);
    assert |b| == |u|;
    assert b == p[..|u|];
  }

  // --- the request handlers

  /**
   * JavaScript truthiness of a request-body field: present and not the empty string.
   * (Only string fields are modelled.)
   */
  predicate Truthy(v: Option<string>) {
    v.Some? && v.value != ""
  }

  datatype FileRequest = FileRequest(
    log: Option<UserId>,
    fileContent: Option<string>,
    fileName: Option<string>,
    fileType: Option<string>)

  datatype ChatRequest = ChatRequest(log: Option<UserId>, message: Option<string>, role: Option<string>)

  datatype Body =
    | ErrorBody(error: string)
    | FileStored(message: string, fileUrl: string)
    | MessageBody(message: string)

  datatype Response = Response(status: nat, body: Body)

  /** A row of `user_files`; `created_at` is the database's clock and not modelled. */
  datatype FileRow = FileRow(userId: UserId, fileName: string, fileType: string, filePath: string, publicUrl: string)

  /** A row of `chat_history`. */
  datatype ChatRow = ChatRow(userId: UserId, message: string, role: string)

  /** A write the handler asks Supabase for. */
  datatype Write =
    | Upload(bucket: string, path: string, content: string, contentType: string)
    | InsertFile(fileRow: FileRow)
    | InsertChat(chatRow: ChatRow)

  /** What Supabase answers: the upload's error, the public URL it hands out, and the insert's failure. */
  datatype StorageReplies = StorageReplies(uploadError: Option<string>, publicUrl: Option<string>, insertFails: bool)

  datatype Outcome = Outcome(response: Response, writes: seq<Write>)

  const Unauthorized := Response(401, ErrorBody("Unauthorized, user ID not found in token."))

  /** `storeGeneratedFile`. */
  function StoreGeneratedFile(req: FileRequest, nowMs: nat, replies: StorageReplies): (o: Outcome)
    ensures o.response.status in {200, 400, 401, 500}
    ensures o.response.status == 200 <==>
      Truthy(req.log) && Truthy(req.fileContent) && Truthy(req.fileName) && Truthy(req.fileType)
      && replies.uploadError.None? && Truthy(replies.publicUrl) && !replies.insertFails
    ensures |o.writes| <= 2
  {
    if !Truthy(req.log) then Outcome(Unauthorized, [])
    else if !Truthy(req.fileContent) || !Truthy(req.fileName) || !Truthy(req.fileType) then
      Outcome(Response(400, ErrorBody("Missing required file information")), [])
    else
      var userId, name, fileType := req.log.value, req.fileName.value, req.fileType.value;
      var path := StoragePath(userId, nowMs, name);
      var upload := Upload("user-files", path, req.fileContent.value, fileType);
      match replies.uploadError
      case Some(msg) =>
        Outcome(Response(500, ErrorBody("Failed to upload file to storage: " + msg)), [upload])
      case None =>
        if !Truthy(replies.publicUrl) then
          Outcome(Response(500, ErrorBody("Failed to generate public URL for file")), [upload])
        else
          var url := replies.publicUrl.value;
          var insert := InsertFile(FileRow(userId, name, fileType, path, url));
          if replies.insertFails then
            Outcome(Response(500, ErrorBody("Failed to store file metadata")), [upload, insert])
          else
            Outcome(Response(200, FileStored("File stored successfully", url)), [upload, insert])
  }

  /** A missing user id is answered 401 before anything else is looked at, and nothing is written. */
  lemma FileUnauthorizedFirst(req: FileRequest, nowMs: nat, replies: StorageReplies)
    requires !Truthy(req.log)
    ensures StoreGeneratedFile(req, nowMs, replies) == Outcome(Unauthorized, [])
  {
  }

  /** With a user id, a missing content, name or type is answered 400, and nothing is written. */
  lemma FileMissingFieldIs400(req: FileRequest, nowMs: nat, replies: StorageReplies)
    requires Truthy(req.log)
    requires !Truthy(req.fileContent) || !Truthy(req.fileName) || !Truthy(req.fileType)
    ensures var o := StoreGeneratedFile(req, nowMs, replies);
      o.response.status == 400 && o.writes == []
  {
  }

  /**
   * A valid request uploads first, to `user-files` under the storage path; the metadata row,
   * written only after a successful upload with a URL, keeps the original file name next to
   * the sanitised path, and the response hands back the same URL.
   */
  lemma FileWrites(req: FileRequest, nowMs: nat, replies: StorageReplies)
    requires Truthy(req.log) && Truthy(req.fileContent) && Truthy(req.fileName) && Truthy(req.fileType)
    ensures var o := StoreGeneratedFile(req, nowMs, replies);
      var path := StoragePath(req.log.value, nowMs, req.fileName.value);
      && o.writes != []
      && o.writes[0] == Upload("user-files", path, req.fileContent.value, req.fileType.value)
      && (|o.writes| == 2 <==> replies.uploadError.None? && Truthy(replies.publicUrl))
      && (|o.writes| == 2 ==>
            o.writes[1] == InsertFile(FileRow(req.log.value, req.fileName.value, req.fileType.value, path, replies.publicUrl.value)))
      && (o.response.status == 200 ==> o.response.body.fileUrl == replies.publicUrl.value)
  {
  }

  /** `storeChatMessage`. */
  function StoreChatMessage(req: ChatRequest, insertFails: bool): (o: Outcome)
    ensures o.response.status in {200, 400, 401, 500}
    ensures o.response.status == 200 <==>
      Truthy(req.log) && Truthy(req.message) && Truthy(req.role) && !insertFails
    ensures |o.writes| <= 1
  {
    if !Truthy(req.log) then Outcome(Unauthorized, [])
    else if !Truthy(req.message) || !Truthy(req.role) then
      Outcome(Response(400, ErrorBody("Missing required message information")), [])
    else
      var insert := InsertChat(ChatRow(req.log.value, req.message.value, req.role.value));
      if insertFails then Outcome(Response(500, ErrorBody("Failed to store chat message")), [insert])
      else Outcome(Response(200, MessageBody("Chat message stored successfully")), [insert])
  }

  /** The chat endpoint checks in the same order: 401 first, then 400, and only then writes. */
  lemma ChatValidationOrder(req: ChatRequest, insertFails: bool)
    ensures var o := StoreChatMessage(req, insertFails);
      && (!Truthy(req.log) ==> o == Outcome(Unauthorized, []))
      && (Truthy(req.log) && (!Truthy(req.message) || !Truthy(req.role)) ==> o.response.status == 400 && o.writes == [])
      && (o.writes != [] <==> Truthy(req.log) && Truthy(req.message) && Truthy(req.role))
      && (o.writes != [] ==> o.writes == [InsertChat(ChatRow(req.log.value, req.message.value, req.role.value))])
  {
  }
}
