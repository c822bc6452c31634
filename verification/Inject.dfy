/** The development overlay's buffering response writer, irmik/devtools/inject.go. A body is a sequence of
    bytes, written here as characters. */
module Inject {
  import opened Common
  import opened Lowering

  const MAX_INJECT_BYTES: nat := 4 * 1024 * 1024

  const MARKER := "/_irmik/dev/overlay.js"
  const TAG_OPEN := "<script src=\""
  const TAG := TAG_OPEN + MARKER + "\" defer></script>"
  const BODY_END := "</body>"

  // ----- Searching -----

  predicate At(s: string, sub: string, i: int) {
    0 <= i && i + |sub| <= |s| && s[i..i + |sub|] == sub
  }

  predicate Contains(s: string, sub: string) {
    exists i :: 0 <= i <= |s| && At(s, sub, i)
  }

  /** The last position of sub in s[..n + |sub|], if any. */
  function LastAt(s: string, sub: string, n: nat): (r: Option<nat>)
    ensures match r
      case None => forall i :: 0 <= i <= n ==> !At(s, sub, i)
      case Some(i) => i <= n && At(s, sub, i) && forall j :: i < j <= n ==> !At(s, sub, j)
    decreases n
  {
    if At(s, sub, n) then Some(n) else if n == 0 then None else LastAt(s, sub, n - 1)
  }

  function LastIndex(s: string, sub: string): Option<nat> { LastAt(s, sub, |s|) }

  // ----- Injection -----

  /** injectHTML with any lower-casing. None is the run-time panic of a slice past the end, which happens when
      lower-casing lengthens the body and moves the end tag beyond it. */
  function InjectHTML(lower: string -> string, body: string): Option<string> {
    match LastIndex(lower(body), BODY_END)
    case None => Some(body + TAG)
    case Some(i) => if i > |body| then None else Some(body[..i] + TAG + body[i..])
  }

  /** Deleting the piece put in at i gives the body back. */
  ghost predicate PutInAt(out: string, piece: string, body: string, i: nat) {
    && i + |piece| <= |out| && i <= |body|
    && out[i..i + |piece|] == piece && out[..i] + out[i + |piece|..] == body
  }

  ghost predicate InsertedAt(out: string, body: string, i: nat) { PutInAt(out, TAG, body, i) }

  /** Whatever lower-casing does, injection succeeds exactly when the end tag it finds is not past the body,
      and then it is the body with the tag inserted. */
  lemma InjectRestores(lower: string -> string, body: string)
    ensures var found, out := LastIndex(lower(body), BODY_END), InjectHTML(lower, body);
      && (out.None? <==> found.Some? && found.value > |body|)
      && (out.Some? ==> InsertedAt(out.value, body, if found.Some? then found.value else |body|))
  {
  }

  /** The same bytes up to the case of ASCII letters. */
  predicate SameLetters(s: string, t: string) { AsciiLower(s) == AsciiLower(t) }

  /** An end tag of the body, in any mix of cases, starts at j. */
  predicate EndTagAt(body: string, j: int) {
    0 <= j <= |body| - |BODY_END| && SameLetters(body[j..j + |BODY_END|], BODY_END)
  }

  lemma EndTagIsFound(body: string, j: nat)
    ensures EndTagAt(body, j) <==> At(AsciiLower(body), BODY_END, j)
  {
  }

  /** The end tag in any mix of cases: byte by byte its own letter or the capital of it. */
  lemma EndTagLetters(body: string, j: int)
    ensures EndTagAt(body, j) <==> 0 <= j <= |body| - 7 && forall k :: 0 <= k < 7 ==>
      body[j + k] == "</body>"[k] || body[j + k] == "</BODY>"[k]
  {
    if 0 <= j <= |body| - |BODY_END| {
      var part := body[j..j + |BODY_END|];
      if EndTagAt(body, j) {
        forall k | 0 <= k < 7 ensures body[j + k] == "</body>"[k] || body[j + k] == "</BODY>"[k] {
          assert AsciiLower(part)[k] == AsciiLower(BODY_END)[k] && part[k] == body[j + k];
        }
      }
      if forall k :: 0 <= k < 7 ==> body[j + k] == "</body>"[k] || body[j + k] == "</BODY>"[k] {
        forall k | 0 <= k < 7 ensures AsciiLower(part)[k] == AsciiLower(BODY_END)[k] {
          assert part[k] == body[j + k];
          assert body[j + k] == "</body>"[k] || body[j + k] == "</BODY>"[k];
        }
        assert AsciiLower(part) == AsciiLower(BODY_END);
      }
    }
  }

  /** With byte-by-byte lower-casing the tag goes right before the last end tag, in any mix of cases, or at the
      end when there is none. */
  lemma InjectBeforeLastEndTag(body: string)
    ensures InjectHTML(AsciiLower, body).Some?
    ensures var out := InjectHTML(AsciiLower, body).value;
      || (exists i :: EndTagAt(body, i) && InsertedAt(out, body, i) && forall j :: i < j ==> !EndTagAt(body, j))
      || (out == body + TAG && forall j :: !EndTagAt(body, j))
  {
    InjectRestores(AsciiLower, body);
    forall j: nat ensures EndTagAt(body, j) <==> At(AsciiLower(body), BODY_END, j) {
      EndTagIsFound(body, j);
    }
    var found := LastIndex(AsciiLower(body), BODY_END);
    if found.Some? {
      assert EndTagAt(body, found.value);
      assert InsertedAt(InjectHTML(AsciiLower, body).value, body, found.value);
    }
  }

  // ----- What the middleware does with a finished body -----

  datatype Reply = Reply(contentType: string, status: int, acceptsHtml: bool)

  predicate Passes(r: Reply, body: string) {
    || Contains(r.contentType, "text/event-stream") || Contains(r.contentType, "application/json")
    || !(Contains(r.contentType, "text/html")
         || (r.status >= 400 && Contains(r.contentType, "text/plain") && r.acceptsHtml))
    || Contains(body, MARKER)
  }

  /** wrap is the page built around a plain error text. */
  function Finished(lower: string -> string, wrap: string -> string, r: Reply, body: string): Option<string> {
    if Passes(r, body) then Some(body)
    else InjectHTML(lower, if Contains(r.contentType, "text/plain") then wrap(body) else body)
  }

  lemma SliceOfSlice(s: string, i: nat, t: string, n: nat, k: nat)
    requires i + |t| <= |s| && s[i..i + |t|] == t && n + k <= |t|
    ensures s[i + n..i + n + k] == t[n..n + k]
  {
    var whole, a, b := s[i..i + |t|], s[i + n..i + n + k], t[n..n + k];
    forall j | 0 <= j < k ensures a[j] == b[j] {
      assert a[j] == whole[n + j];
    }
  }

  lemma TagHasMarker(s: string, i: nat)
    requires i + |TAG| <= |s| && s[i..i + |TAG|] == TAG
    ensures Contains(s, MARKER)
  {
    var n := |TAG_OPEN|;
    assert TAG[n..n + |MARKER|] == MARKER;
    SliceOfSlice(s, i, TAG, n, |MARKER|);
    assert At(s, MARKER, i + n);
  }

  /** A body already given the overlay is passed on as it is: injecting twice is injecting once. */
  lemma InjectOnce(lower: string -> string, wrap: string -> string, r: Reply, body: string, r': Reply)
    requires Finished(lower, wrap, r, body).Some? && !Passes(r, body)
    ensures var out := Finished(lower, wrap, r, body).value; Finished(lower, wrap, r', out) == Some(out)
  {
    var inner := if Contains(r.contentType, "text/plain") then wrap(body) else body;
    InjectRestores(lower, inner);
    var out := InjectHTML(lower, inner).value;
    var found := LastIndex(lower(inner), BODY_END);
    TagHasMarker(out, if found.Some? then found.value else |inner|);
  }

  // ----- The buffering writer -----

  /** What happens to one write: buffered, or everything so far passed on and buffering given up. */
  datatype Writer = Writer(buf: string, skipped: bool, passed: string)

  function Put(w: Writer, data: string): Writer {
    if w.skipped then w.(passed := w.passed + data)
    else if |w.buf| + |data| > MAX_INJECT_BYTES then Writer("", true, w.passed + w.buf + data)
    else w.(buf := w.buf + data)
  }

  /** What the client has been sent once the handler is done. */
  function Close(lower: string -> string, wrap: string -> string, r: Reply, w: Writer): Option<string> {
    if w.skipped then Some(w.passed) else
    match Finished(lower, wrap, r, w.buf)
    case None => None
    case Some(out) => Some(w.passed + out)
  }

  class BodyWriter {
    var buf: string
    var status: int
    var wroteHeader: bool
    var skipped: bool

    /** The response underneath: bytes passed on and the status of its first header. */
    var passed: string
    var headerSent: Option<int>

    function Value(): Writer
      reads this
    {
      Writer(buf, skipped, passed)
    }

    constructor ()
      ensures Value() == Writer("", false, "") && status == 200 && !wroteHeader && headerSent == None
    {
      buf, status, wroteHeader, skipped, passed, headerSent := "", 200, false, false, "", None;
    }

    method WriteHeader(code: int)
      modifies `status, `wroteHeader
      ensures status == code && wroteHeader
    {
      status := code;
      wroteHeader := true;
    }

    method Write(data: string)
      modifies this
      ensures Value() == Put(old(Value()), data)
      ensures skipped ==> headerSent.Some?
      ensures !skipped ==> headerSent == old(headerSent) && status == old(status)
      ensures old(headerSent).Some? ==> headerSent == old(headerSent)
    {
      if skipped {
        FlushHeader();
        passed := passed + data;
        return;
      }
      if |buf| + |data| > MAX_INJECT_BYTES {
        skipped := true;
        FlushHeader();
        if |buf| > 0 {
          passed := passed + buf;
          buf := "";
        }
        passed := passed + data;
        return;
      }
      buf := buf + data;
    }

    /** Only the first header reaches the client. */
    method FlushHeader()
      modifies `status, `wroteHeader, `headerSent
      ensures status == (if old(status) == 0 then 200 else old(status)) && wroteHeader
      ensures headerSent == if old(headerSent).None? then Some(status) else old(headerSent)
    {
      if status == 0 {
        status := 200;
      }
      if headerSent.None? {
        headerSent := Some(status);
      }
      wroteHeader := true;
    }

    /** The tail of the middleware. */
    method Finish(lower: string -> string, wrap: string -> string, r: Reply) returns (sent: Option<string>)
      modifies this
      ensures sent == Close(lower, wrap, r, old(Value()))
      ensures sent.Some? ==> passed == sent.value
    {
      if skipped {
        return Some(passed);
      }
      var out := Finished(lower, wrap, r, buf);
      if out.None? {
        return None;
      }
      FlushHeader();
      passed := passed + out.value;
      return Some(passed);
    }
  }

  function PutAll(w: Writer, writes: seq<string>): Writer
    decreases |writes|
  {
    if writes == [] then w else Put(PutAll(w, writes[..|writes| - 1]), writes[|writes| - 1])
  }

  function Concat(writes: seq<string>): string
    decreases |writes|
  {
    if writes == [] then "" else Concat(writes[..|writes| - 1]) + writes[|writes| - 1]
  }

  const NEW: Writer := Writer("", false, "")

  /** At every moment the bytes passed on followed by those buffered are the bytes written; nothing is passed
      on before the switch and nothing is buffered after it. */
  lemma {:induction false} NothingLostOrRepeated(writes: seq<string>)
    ensures var w := PutAll(NEW, writes);
      && w.passed + w.buf == Concat(writes)
      && (w.skipped ==> w.buf == "") && (!w.skipped ==> w.passed == "" && |w.buf| <= MAX_INJECT_BYTES)
    decreases |writes|
  {
    if writes != [] {
      var n := |writes| - 1;
      NothingLostOrRepeated(writes[..n]);
      var w, data := PutAll(NEW, writes[..n]), writes[n];
      assert w.passed + w.buf + data == w.passed + (w.buf + data);
      assert w.skipped ==> w.passed + data + "" == w.passed + w.buf + data;
    }
  }

  /** Buffering is given up exactly when the whole body exceeds four megabytes, however it is cut up. */
  lemma {:induction false} SkippedIffLarge(writes: seq<string>)
    ensures PutAll(NEW, writes).skipped <==> |Concat(writes)| > MAX_INJECT_BYTES
    decreases |writes|
  {
    if writes != [] {
      var n := |writes| - 1;
      SkippedIffLarge(writes[..n]);
      NothingLostOrRepeated(writes[..n]);
    }
  }

  /** Main result: however the handler cuts up its writes, the client receives the whole body unchanged when it
      is large or not to be touched, and otherwise the body with the tag inserted. */
  lemma ClientReceivesBody(lower: string -> string, wrap: string -> string, r: Reply, writes: seq<string>)
    ensures var body := Concat(writes);
      Close(lower, wrap, r, PutAll(NEW, writes))
      == if |body| > MAX_INJECT_BYTES then Some(body) else Finished(lower, wrap, r, body)
  {
    NothingLostOrRepeated(writes);
    SkippedIffLarge(writes);
    var w := PutAll(NEW, writes);
    assert w.passed + "" == w.passed && "" + w.buf == w.buf;
    if !w.skipped && Finished(lower, wrap, r, w.buf).Some? {
      assert "" + Finished(lower, wrap, r, w.buf).value == Finished(lower, wrap, r, w.buf).value;
    }
  }

  ghost predicate Has(s: string, part: string) { exists a, b :: s == a + part + b }

  lemma ContainsIff(s: string, part: string)
    ensures Contains(s, part) <==> Has(s, part)
  {
    if Contains(s, part) {
      var i :| 0 <= i <= |s| && At(s, part, i);
      assert s == s[..i] + part + s[i + |part|..];
    }
    if a, b :| s == a + part + b {
      assert s[|a|..|a| + |part|] == part;
      assert At(s, part, |a|);
    }
  }

  /** A response the overlay goes into: small, without the overlay, neither a stream of events nor JSON, and a page or a
      plain error shown to somebody who reads pages. */
  ghost predicate TakesOverlay(r: Reply, body: string) {
    && |body| <= 4194304 && !Has(body, MARKER)
    && !Has(r.contentType, "text/event-stream") && !Has(r.contentType, "application/json")
    && (Has(r.contentType, "text/html") || (r.status >= 400 && Has(r.contentType, "text/plain") && r.acceptsHtml))
  }

  /** Main result: every other response reaches the client as it was written; one that takes the overlay gets the tag,
      after a plain error has been made a page. */
  lemma OverlayIff(lower: string -> string, wrap: string -> string, r: Reply, writes: seq<string>)
    ensures var body := Concat(writes);
      Close(lower, wrap, r, PutAll(NEW, writes))
      == if !TakesOverlay(r, body) then Some(body)
         else InjectHTML(lower, if Has(r.contentType, "text/plain") then wrap(body) else body)
  {
    var ct := r.contentType;
    ClientReceivesBody(lower, wrap, r, writes);
    ContainsIff(Concat(writes), MARKER);
    ContainsIff(ct, "text/event-stream");
    ContainsIff(ct, "application/json");
    ContainsIff(ct, "text/html");
    ContainsIff(ct, "text/plain");
  }
}
