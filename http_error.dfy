/**
 * The error a failed API request raises: its message is assembled from the
 * response's status and status text and the request URL.
 */
module HttpErrors {
  import opened Wrappers
  import opened JsText

  /** The parts of a response the message reads; `None` is a missing value (a status that is not a number, an absent text). */
  datatype Response = Response(status: Option<int>, statusText: Option<string>)

  /** The thrown error: its `name`, its `message` and the response it keeps. */
  datatype HttpError = HttpError(name: string, message: string, response: Response)

  /** The numeric status when there is one, 0 included; otherwise empty. */
  function Code(r: Response): string {
    if r.status.Some? then IntToString(r.status.value) else ""
  }

  /** The status text, or empty when it is missing or empty. */
  function Title(r: Response): string {
    if r.statusText.Some? then r.statusText.value else ""
  }

  /** `${code} ${title}`, trimmed. */
  function StatusLine(r: Response): string {
    Trim(Code(r) + " " + Title(r))
  }

  function Reason(r: Response): string {
    var status := StatusLine(r);
    if |status| > 0 then "status code " + status else "an unknown error"
  }

  /** The message text: the reason and the URL. */
  function Message(r: Response, url: string): string {
    "Request failed with " + Reason(r) + ": " + url
  }

  /**
   * The `HTTPError` constructor. With a status, or with a status text that is
   * not blank, the message quotes the status line after "status code"; it
   * reports "an unknown error" exactly when there is no status and the status
   * text is missing or blank.
   */
  function NewHttpError(r: Response, url: string): (e: HttpError)
    ensures e.name == "HTTPError" && e.response == r
    ensures r.status.Some? || |StatusLine(r)| > 0 ==>
              e.message == "Request failed with status code " + StatusLine(r) + ": " + url
    ensures e.message == "Request failed with an unknown error: " + url <==>
              r.status.None? && forall k :: 0 <= k < |Title(r)| ==> IsJsWhitespace(Title(r)[k])
  {
    MessageForms(r, url);
    HttpError("HTTPError", Message(r, url), r)
  }

  /** A rendered integer starts and ends with a character that is not whitespace. */
  lemma {:induction false} RenderedIntegerEdges(n: int)
    ensures !IsJsWhitespace(IntToString(n)[0]) && !IsJsWhitespace(IntToString(n)[|IntToString(n)| - 1])
  {
    IntToStringChars(n);
  }

  /** Trimming a word followed by one space gives the word back. */
  lemma {:induction false} TrimSpaceAfter(x: string)
    requires |x| > 0 && !IsJsWhitespace(x[0]) && !IsJsWhitespace(x[|x| - 1])
    ensures Trim(x + " ") == x
  {
    var s := x + " ";
    var r := Trim(s);
    assert LeadingSpace(s) == 0;
    assert |r| == |x| by {
      if |r| == |s| {
        assert false;
      }
    }
    assert r == s[..|x|] == x;
  }

  /** A trimmed text is empty exactly when the text is all whitespace. */
  lemma {:induction false} TrimEmptyIff(t: string)
    ensures |Trim(t)| == 0 <==> forall k :: 0 <= k < |t| ==> IsJsWhitespace(t[k])
  {
    if forall k :: 0 <= k < |t| ==> IsJsWhitespace(t[k]) {
      assert LeadingSpace(t) == |t|;
    }
  }

  lemma {:induction false} PrefixJoin()
    ensures "Request failed with " + "status code " == "Request failed with status code "
  {
  }

  /** Re-association of the message's pieces. */
  lemma {:induction false} Regroup(p: string, q: string, pq: string, l: string, u: string)
    requires p + q == pq
    ensures p + (q + l) + ": " + u == pq + l + ": " + u
  {
    assert p + (q + l) == pq + l;
  }

  lemma {:induction false} RegroupLine(p: string, code: string, title: string, u: string)
    ensures p + (code + " " + title) + ": " + u == p + code + " " + title + ": " + u
  {
    assert p + (code + " " + title) == p + code + " " + title;
  }

  /** A non-empty status line is quoted after "status code". */
  lemma {:induction false} MessageOfLine(r: Response, url: string)
    requires |StatusLine(r)| > 0
    ensures Message(r, url) == "Request failed with status code " + StatusLine(r) + ": " + url
  {
    PrefixJoin();
    Regroup("Request failed with ", "status code ", "Request failed with status code ", StatusLine(r), url);
  }

  /** The status line of a status and a status text without surrounding whitespace. */
  lemma {:induction false} BothLine(r: Response)
    requires r.status.Some? && r.statusText.Some?
    requires var t := r.statusText.value; |t| > 0 && !IsJsWhitespace(t[0]) && !IsJsWhitespace(t[|t| - 1])
    ensures StatusLine(r) == IntToString(r.status.value) + " " + r.statusText.value
  {
    var code, title := Code(r), Title(r);
    assert code == IntToString(r.status.value) && title == r.statusText.value;
    RenderedIntegerEdges(r.status.value);
    var line := code + " " + title;
    assert line[0] == code[0] && line[|line| - 1] == title[|title| - 1];
    TrimNoSpace(line);
  }

  /** With a status and a non-empty status text that has no surrounding whitespace, both appear, one space apart. */
  lemma {:induction false} StatusMessage(r: Response, url: string)
    requires r.status.Some? && r.statusText.Some?
    requires var t := r.statusText.value; |t| > 0 && !IsJsWhitespace(t[0]) && !IsJsWhitespace(t[|t| - 1])
    ensures NewHttpError(r, url).message ==
              "Request failed with status code " + IntToString(r.status.value) + " " + r.statusText.value + ": " + url
  {
    BothLine(r);
    RegroupLine("Request failed with status code ", IntToString(r.status.value), r.statusText.value, url);
  }

  /** With a status and no status text, the status alone. */
  lemma {:induction false} StatusOnlyMessage(r: Response, url: string)
    requires r.status.Some? && (r.statusText.None? || r.statusText.value == "")
    ensures NewHttpError(r, url).message == "Request failed with status code " + IntToString(r.status.value) + ": " + url
  {
    var code := Code(r);
    assert code == IntToString(r.status.value);
    RenderedIntegerEdges(r.status.value);
    assert Title(r) == "";
    assert code + " " + Title(r) == code + " ";
    TrimSpaceAfter(code);
    assert StatusLine(r) == code;
  }

  /** Without a status, the reason is unknown exactly when the status text is blank. */
  lemma {:induction false} NoStatusLine(r: Response)
    requires r.status.None?
    ensures |StatusLine(r)| == 0 <==> forall k :: 0 <= k < |Title(r)| ==> IsJsWhitespace(Title(r)[k])
  {
    assert Code(r) + " " + Title(r) == " " + Title(r);
    TrimLeadingSpace(Title(r));
    TrimEmptyIff(Title(r));
  }

  /** With a status, there is always a status line. */
  lemma {:induction false} SomeStatusLine(r: Response)
    requires r.status.Some?
    ensures |StatusLine(r)| > 0
  {
    var code := Code(r);
    assert code == IntToString(r.status.value);
    var line := code + " " + Title(r);
    RenderedIntegerEdges(r.status.value);
    assert line[0] == code[0];
    TrimKeeps(line, 0);
  }

  /** Two messages for the same URL are equal exactly when their reasons are. */
  lemma {:induction false} MessageDeterminesReason(x: string, y: string, url: string)
    ensures "Request failed with " + x + ": " + url == "Request failed with " + y + ": " + url <==> x == y
  {
    var p := "Request failed with ";
    var a, b := p + x + ": " + url, p + y + ": " + url;
    if a == b {
      assert |x| == |y|;
      assert a[|p|..|p| + |x|] == x;
      assert b[|p|..|p| + |y|] == y;
    }
  }

  lemma {:induction false} UnknownJoin()
    ensures "Request failed with " + "an unknown error" + ": " == "Request failed with an unknown error: "
  {
  }

  /** The reason is "an unknown error" exactly when there is no status and the status text is blank. */
  lemma {:induction false} UnknownMessageIff(r: Response, url: string)
    ensures Message(r, url) == "Request failed with an unknown error: " + url <==>
              r.status.None? && forall k :: 0 <= k < |Title(r)| ==> IsJsWhitespace(Title(r)[k])
  {
    UnknownJoin();
    MessageDeterminesReason(Reason(r), "an unknown error", url);
    if |StatusLine(r)| > 0 {
      assert Reason(r)[0] == 's';
    }
    if r.status.None? {
      NoStatusLine(r);
    } else {
      SomeStatusLine(r);
    }
  }

  /** The two forms of the message. */
  lemma {:induction false} MessageForms(r: Response, url: string)
    ensures r.status.Some? || |StatusLine(r)| > 0 ==>
              Message(r, url) == "Request failed with status code " + StatusLine(r) + ": " + url
    ensures Message(r, url) == "Request failed with an unknown error: " + url <==>
              r.status.None? && forall k :: 0 <= k < |Title(r)| ==> IsJsWhitespace(Title(r)[k])
  {
    if r.status.Some? {
      SomeStatusLine(r);
    }
    if |StatusLine(r)| > 0 {
      MessageOfLine(r, url);
    }
    UnknownMessageIff(r, url);
  }

  lemma {:induction false} BadRequestText()
    ensures "Request failed with status code " + "400" + " " + "Bad Request" + ": "
            == "Request failed with status code 400 Bad Request: "
  {
    var head := "Request failed with status code ";
    assert head + "400" == "Request failed with status code 400";
    assert head + "400" + " " == "Request failed with status code 400 ";
    assert head + "400" + " " + "Bad Request" == "Request failed with status code 400 Bad Request";
  }

  /** The message the client's tests expect for a 400 response (there with the URL of the bible list). */
  lemma {:induction false} BadRequestExample(r: Response, url: string)
    requires r == Response(Some(400), Some("Bad Request"))
    ensures NewHttpError(r, url).message == "Request failed with status code 400 Bad Request: " + url
  {
    assert IntToString(r.status.value) == "400";
    StatusMessage(r, url);
    BadRequestText();
  }

  /** A zero status is kept. */
  lemma {:induction false} ZeroStatusExample(r: Response, url: string)
    requires r == Response(Some(0), None)
    ensures NewHttpError(r, url).message == "Request failed with status code 0: " + url
  {
    assert IntToString(r.status.value) == "0";
    StatusOnlyMessage(r, url);
  }
}
