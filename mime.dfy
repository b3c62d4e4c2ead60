/**
 * The minimal single-part MIME message that the worker hands to the e-mail
 * binding (buildMimeMessage in src/index.js), and a reader that splits such a
 * message back into its header lines and its body at the first empty line.
 */
module Mime {
  import opened Wrappers

  const CRLF: string := "\r\n"

  /** `lines.join(sep)` as JavaScript's Array.prototype.join computes it. */
  function Join(lines: seq<string>, sep: string): string
  {
    if |lines| == 0 then ""
    else if |lines| == 1 then lines[0]
    else lines[0] + sep + Join(lines[1..], sep)
  }

  /** Every line followed by its own CRLF: the wire form of a header block. */
  function Terminated(lines: seq<string>): string
  {
    if lines == [] then "" else lines[0] + CRLF + Terminated(lines[1..])
  }

  /** Joining non-empty lines with CRLF and adding one more CRLF terminates every line. */
  lemma {:induction false} JoinThenTerminate(lines: seq<string>)
    requires lines != []
    ensures Join(lines, CRLF) + CRLF == Terminated(lines)
  {
    if |lines| > 1 {
      JoinThenTerminate(lines[1..]);
      calc {
        Join(lines, CRLF) + CRLF;
        lines[0] + CRLF + Join(lines[1..], CRLF) + CRLF;
        lines[0] + CRLF + (Join(lines[1..], CRLF) + CRLF);
        Terminated(lines);
      }
    }
  }

  /** The seven header lines, in the order the worker writes them. */
  function HeaderLines(from: string, fromName: string, to: string, subject: string, date: string): seq<string>
  {
    [ "From: " + fromName + " <" + from + ">",
      "To: " + to,
      "Subject: " + subject,
      "Date: " + date,
      "MIME-Version: 1.0",
      "Content-Type: text/plain; charset=UTF-8",
      "Content-Transfer-Encoding: 8bit" ]
  }

  /**
   * buildMimeMessage. The clock reading (`date`, an HTTP-style UTC string) and
   * the random `boundary` are parameters; the boundary is computed by the
   * source but never written into the message.
   */
  function BuildMimeMessage(from: string, fromName: string, to: string, subject: string,
                            body: string, date: string, boundary: string): (r: string)
    ensures r == Terminated(HeaderLines(from, fromName, to, subject, date)) + CRLF + body
    ensures |r| >= |body| + 4 && r[|r| - |body|..] == body
    ensures r[|r| - |body| - 4..|r| - |body|] == CRLF + CRLF
  {
    var lines := HeaderLines(from, fromName, to, subject, date);
    JoinThenTerminate(lines);
    Join(lines, CRLF) + CRLF + CRLF + body
  }

  /** True when a CR LF pair starts at index i of s. */
  predicate CrlfAt(s: string, i: int)
  {
    0 <= i && i + 1 < |s| && s[i] == '\r' && s[i + 1] == '\n'
  }

  /**
   * Splits s at its first CR LF: the text before it and the text after it,
   * or None when s holds no CR LF at all.
   */
  function SplitLine(s: string): (r: Option<(string, string)>)
    ensures r.None? ==> forall i :: 0 <= i < |s| ==> !CrlfAt(s, i)
    ensures r.Some? ==> s == r.value.0 + CRLF + r.value.1
    ensures r.Some? ==> forall i :: 0 <= i < |r.value.0| ==> !CrlfAt(s, i)
    decreases |s|
  {
    if |s| < 2 then None
    else if s[0] == '\r' && s[1] == '\n' then Some(("", s[2..]))
    else
      assert forall i :: 1 <= i < |s| ==> (CrlfAt(s, i) <==> CrlfAt(s[1..], i - 1));
      match SplitLine(s[1..])
      case None => None
      case Some((line, rest)) => Some(([s[0]] + line, rest))
  }

  /**
   * Reads header lines up to the first empty line, as a mail reader does, and
   * returns them together with the body that follows the empty line; None when
   * the text ends before an empty line.
   */
  function ReadMessage(s: string): (r: Option<(seq<string>, string)>)
    ensures r.Some? ==> s == Terminated(r.value.0) + CRLF + r.value.1
    ensures r.Some? ==> forall k :: 0 <= k < |r.value.0| ==> r.value.0[k] != ""
    decreases |s|
  {
    match SplitLine(s)
    case None => None
    case Some((line, rest)) =>
      if line == "" then Some(([], rest))
      else
        match ReadMessage(rest)
        case None => None
        case Some((lines, body)) =>
          assert Terminated([line] + lines) == line + CRLF + Terminated(lines) by {
            assert ([line] + lines)[1..] == lines;
          }
          Some(([line] + lines, body))
  }

  /** A line written without CR is read back whole, whatever follows its CRLF. */
  lemma {:induction false} SplitLineAfterLine(line: string, rest: string)
    requires '\r' !in line
    ensures SplitLine(line + CRLF + rest) == Some((line, rest))
    decreases |line|
  {
    var s := line + CRLF + rest;
    if line != "" {
      assert s[0] == line[0] && s[0] != '\r';
      assert s[1..] == line[1..] + CRLF + rest;
      SplitLineAfterLine(line[1..], rest);
      assert [s[0]] + line[1..] == line;
    } else {
      assert s[2..] == rest;
    }
  }

  /**
   * Header lines that are non-empty and hold no CR are read back exactly, and
   * the reader's body is exactly what followed the empty line.
   */
  lemma {:induction false} ReadTerminated(lines: seq<string>, body: string)
    requires forall k :: 0 <= k < |lines| ==> lines[k] != "" && '\r' !in lines[k]
    ensures ReadMessage(Terminated(lines) + CRLF + body) == Some((lines, body))
  {
    if lines == [] {
      assert Terminated(lines) + CRLF + body == "" + CRLF + body;
      SplitLineAfterLine("", body);
    } else {
      var tail := Terminated(lines[1..]) + CRLF + body;
      assert Terminated(lines) + CRLF + body == lines[0] + CRLF + tail;
      SplitLineAfterLine(lines[0], tail);
      ReadTerminated(lines[1..], body);
      assert [lines[0]] + lines[1..] == lines;
    }
  }

  /**
   * When no header value holds a CR, reading the built message back gives
   * exactly the seven headers, in order, and the body verbatim.
   */
  lemma MimeRoundTrip(from: string, fromName: string, to: string, subject: string,
                      body: string, date: string, boundary: string)
    requires '\r' !in from && '\r' !in fromName && '\r' !in to
    requires '\r' !in subject && '\r' !in date
    ensures ReadMessage(BuildMimeMessage(from, fromName, to, subject, body, date, boundary))
         == Some(([ "From: " + fromName + " <" + from + ">",
                    "To: " + to,
                    "Subject: " + subject,
                    "Date: " + date,
                    "MIME-Version: 1.0",
                    "Content-Type: text/plain; charset=UTF-8",
                    "Content-Transfer-Encoding: 8bit" ], body))
  {
    var lines := HeaderLines(from, fromName, to, subject, date);
    forall k | 0 <= k < |lines| ensures lines[k] != "" && '\r' !in lines[k] {
      NoCrInHeaderLine(from, fromName, to, subject, date, k);
    }
    ReadTerminated(lines, body);
  }

  lemma NoCrInHeaderLine(from: string, fromName: string, to: string, subject: string, date: string, k: nat)
    requires '\r' !in from && '\r' !in fromName && '\r' !in to
    requires '\r' !in subject && '\r' !in date
    requires k < 7
    ensures var line := HeaderLines(from, fromName, to, subject, date)[k]; line != "" && '\r' !in line
  {
    var line := HeaderLines(from, fromName, to, subject, date)[k];
    assert line[0] in "FTSDMC";
  }

  /** The random boundary has no effect on the message. */
  lemma BoundaryUnused(from: string, fromName: string, to: string, subject: string,
                       body: string, date: string, b1: string, b2: string)
    ensures BuildMimeMessage(from, fromName, to, subject, body, date, b1)
         == BuildMimeMessage(from, fromName, to, subject, body, date, b2)
  {
  }

  /**
   * Two messages built from the same inputs at different times differ only in
   * their Date header: every other header line and the body are the same.
   */
  lemma OnlyDateVaries(from: string, fromName: string, to: string, subject: string,
                       body: string, d1: string, d2: string, b1: string, b2: string)
    requires '\r' !in from && '\r' !in fromName && '\r' !in to && '\r' !in subject
    requires '\r' !in d1 && '\r' !in d2
    ensures var r1 := ReadMessage(BuildMimeMessage(from, fromName, to, subject, body, d1, b1));
            var r2 := ReadMessage(BuildMimeMessage(from, fromName, to, subject, body, d2, b2));
            r1.Some? && r2.Some? && r1.value.1 == r2.value.1 == body &&
            |r1.value.0| == |r2.value.0| == 7 &&
            forall k :: 0 <= k < 7 && k != 3 ==> r1.value.0[k] == r2.value.0[k]
  {
    MimeRoundTrip(from, fromName, to, subject, body, d1, b1);
    MimeRoundTrip(from, fromName, to, subject, body, d2, b2);
  }

  /** Terminating a concatenation of line lists terminates each list in turn. */
  lemma {:induction false} TerminatedAppend(a: seq<string>, b: seq<string>)
    ensures Terminated(a + b) == Terminated(a) + Terminated(b)
  {
    if a != [] {
      assert (a + b)[1..] == a[1..] + b;
      TerminatedAppend(a[1..], b);
    } else {
      assert a + b == b;
    }
  }

  /** A message splits around its date: the text before it and after it. */
  lemma AroundDate(from: string, fromName: string, to: string, subject: string,
                   body: string, date: string, boundary: string)
    ensures var h := HeaderLines(from, fromName, to, subject, date);
      BuildMimeMessage(from, fromName, to, subject, body, date, boundary)
        == (Terminated(h[..3]) + "Date: ") + date + (CRLF + Terminated(h[4..]) + CRLF + body)
  {
    var h := HeaderLines(from, fromName, to, subject, date);
    assert h == h[..3] + h[3..];
    TerminatedAppend(h[..3], h[3..]);
    assert h[3..][1..] == h[4..];
  }

  /**
   * For every input, two messages built at different times are the same
   * text around the date: they differ only in the Date header's value,
   * whatever the header values hold.
   */
  lemma DateIsTheOnlyDifference(from: string, fromName: string, to: string, subject: string,
                                body: string, d1: string, d2: string, b1: string, b2: string)
    ensures exists before: string, after: string ::
      && BuildMimeMessage(from, fromName, to, subject, body, d1, b1) == before + d1 + after
      && BuildMimeMessage(from, fromName, to, subject, body, d2, b2) == before + d2 + after
  {
    var h1 := HeaderLines(from, fromName, to, subject, d1);
    var h2 := HeaderLines(from, fromName, to, subject, d2);
    assert h1[..3] == h2[..3] && h1[4..] == h2[4..];
    AroundDate(from, fromName, to, subject, body, d1, b1);
    AroundDate(from, fromName, to, subject, body, d2, b2);
    var before := Terminated(h1[..3]) + "Date: ";
    var after := CRLF + Terminated(h1[4..]) + CRLF + body;
    assert BuildMimeMessage(from, fromName, to, subject, body, d2, b2) == before + d2 + after;
  }
}
