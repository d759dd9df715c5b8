/**
  What the stamper's reading of a head means on the text of its lines: which lines are attribution, which
  length a line declares, when a head is framed, and what the stamped head says when it is read.
  */
module RequestHeaders {
  import opened Search
  import opened Text
  import opened RequestStamp
  import opened RequestStampStream
  import opened RequestReframing

  // ---------------------------------------------------------------- the parts of a line

  /** A name, in any case and with any white space around it, and everything after the first colon. */
  lemma HeaderReads(before: Bytes, name: Bytes, after: Bytes, value: Bytes)
    requires Blank(before) && Blank(after) && ':' !in name
    requires name != "" ==> !IsSpace(name[0]) && !IsSpace(name[|name| - 1])
    ensures var line := before + name + after + ":" + value;
            HeaderName(line) == Lower(name) && HeaderValue(line) == value
  {
    hide Lower, Trim, IndexOf, IndexFrom;
    var text := before + name + after;
    var line := text + ":" + value;
    NoColonInBlank(before);
    NoColonInBlank(after);
    NamedSo(text, value);
    TrimMeans(before, name, after);
    SingletonUnbordered(':');
    AbsentSeparator(text, ':');
    IndexOfSeparator(text, ":", value);
    assert line[|text| + 1..] == value;
  }

  lemma NoColonInBlank(s: Bytes)
    requires Blank(s)
    ensures ':' !in s
  {
    forall i | 0 <= i < |s| ensures s[i] != ':' {
      assert IsSpace(s[i]);
    }
  }

  /** A line without a colon is all name, and its value is the whole line again. */
  lemma NoColonReads(line: Bytes)
    requires ':' !in line
    ensures HeaderName(line) == Lower(Trim(line)) && HeaderValue(line) == line
  {
    AbsentSeparator(line, ':');
    assert line[0..] == line;
  }

  // ---------------------------------------------------------------- lengths

  predicate AllDigits(s: string) { forall i :: 0 <= i < |s| ==> IsDigit(s[i]) }

  function Zeros(k: nat): string { seq(k, i requires 0 <= i < k => '0') }

  lemma {:induction false} DecimalReads(n: nat)
    ensures Decimal(n) != "" && AllDigits(Decimal(n)) && DecimalValue(Decimal(n)) == n
  {
    var d := Decimal(n);
    var init := d[..|d| - 1];
    var digit := d[|d| - 1];
    assert digit as int - '0' as int == n % 10;
    if n >= 10 {
      DecimalReads(n / 10);
      assert init == Decimal(n / 10);
    }
    forall i | 0 <= i < |d| ensures IsDigit(d[i]) {
      assert i < |d| - 1 ==> d[i] == init[i];
    }
  }

  lemma {:induction false} LeadingZeros(k: nat, digits: string)
    requires AllDigits(digits)
    ensures AllDigits(Zeros(k) + digits) && DecimalValue(Zeros(k) + digits) == DecimalValue(digits)
  {
    var s := Zeros(k) + digits;
    if digits != "" {
      LeadingZeros(k, digits[..|digits| - 1]);
      assert s[..|s| - 1] == Zeros(k) + digits[..|digits| - 1];
    } else if k > 0 {
      LeadingZeros(k - 1, digits);
      assert s[..|s| - 1] == Zeros(k - 1) + digits;
    }
  }

  lemma {:induction false} DigitPrefixStops(digits: string, rest: string)
    requires AllDigits(digits) && (rest == "" || !IsDigit(rest[0]))
    ensures DigitPrefix(digits + rest) == digits
  {
    if digits == "" {
      assert digits + rest == rest;
    } else {
      assert (digits + rest)[1..] == digits[1..] + rest;
      DigitPrefixStops(digits[1..], rest);
    }
  }

  /** The length a text declares: that of its leading numeral, whatever the leading zeros, the plus sign and
      the text behind it; none for a negative number or one that rounds to Infinity. */
  lemma LengthMeans(sign: string, zeros: nat, n: nat, rest: string)
    requires sign in {"", "+", "-"} && (rest == "" || !IsDigit(rest[0]))
    ensures ParseLength(sign + Zeros(zeros) + Decimal(n) + rest)
         == if (sign == "-" && n > 0) || n >= Power(2, 1024) - Power(2, 970) then None else Some(n)
  {
    hide Decimal, DecimalValue, DigitPrefix, Power;
    DecimalReads(n);
    LeadingZeros(zeros, Decimal(n));
    var digits := Zeros(zeros) + Decimal(n);
    DigitPrefixStops(digits, rest);
    var s := sign + Zeros(zeros) + Decimal(n) + rest;
    assert s == sign + (digits + rest);
    assert digits + rest != "" && IsDigit((digits + rest)[0]) by {
      assert IsDigit(digits[0]);
    }
    if sign == "" {
      assert s == digits + rest;
    } else {
      assert s[0] == sign[0] && s[1..] == digits + rest;
    }
  }

  /** No length without a digit after the optional sign. */
  lemma NoLength(sign: string, rest: string)
    requires sign in {"+", "-"} || (sign == "" && (rest == "" || (rest[0] != '+' && rest[0] != '-')))
    requires rest == "" || !IsDigit(rest[0])
    ensures ParseLength(sign + rest) == None
  {
    var s := sign + rest;
    if sign == "" {
      assert s == rest;
    } else {
      assert s[0] == sign[0] && s[1..] == rest;
    }
  }

  // ---------------------------------------------------------------- framing

  predicate Named(headers: seq<Bytes>, i: nat, name: string) {
    i < |headers| && HeaderName(headers[i]) == name
  }

  /** The declared length of line i. */
  function Declared(headers: seq<Bytes>, i: nat): Option<nat>
    requires i < |headers|
  {
    ParseLength(Trim(HeaderValue(headers[i])))
  }

  ghost predicate LastNamed(headers: seq<Bytes>, i: nat, name: string) {
    Named(headers, i, name) && forall j: nat :: i < j && Named(headers, j, name) ==> false
  }

  lemma {:induction false} LastLengthReads(headers: seq<Bytes>)
    ensures
      || (exists i: nat :: LastNamed(headers, i, "content-length") && LastLength(headers) == Declared(headers, i))
      || ((forall i: nat :: !Named(headers, i, "content-length")) && LastLength(headers) == None)
  {
    hide HeaderName, HeaderValue, ParseLength;
    if headers != [] {
      var last := |headers| - 1;
      var init := headers[..last];
      if Named(headers, last, "content-length") {
        assert LastNamed(headers, last, "content-length");
      } else {
        LastLengthReads(init);
        assert forall j: nat :: Named(headers, j, "content-length") <==> Named(init, j, "content-length");
        if i: nat :| LastNamed(init, i, "content-length") && LastLength(init) == Declared(init, i) {
          assert LastNamed(headers, i, "content-length");
        }
      }
    }
  }

  lemma ProblemsRead(headers: seq<Bytes>)
    ensures Malformed(headers) <==>
            exists i: nat :: Named(headers, i, "content-length") && Declared(headers, i).None?
    ensures Chunked(headers) <==>
            exists i: nat :: Named(headers, i, "transfer-encoding") && Contains(Lower(HeaderValue(headers[i])), "chunked")
  {
    hide HeaderName, HeaderValue, ParseLength, Lower;
    if h :| h in headers && Kind(h) == Length(None) {
      var i: nat :| i < |headers| && headers[i] == h;
      assert Named(headers, i, "content-length") && Declared(headers, i).None?;
    }
    if i: nat :| Named(headers, i, "content-length") && Declared(headers, i).None? {
      assert headers[i] in headers && Kind(headers[i]) == Length(None);
    }
    if h :| h in headers && Kind(h).ChunkedCoding? {
      var i: nat :| i < |headers| && headers[i] == h;
      assert Named(headers, i, "transfer-encoding") && Contains(Lower(HeaderValue(headers[i])), "chunked");
    }
    if i: nat :| Named(headers, i, "transfer-encoding") && Contains(Lower(HeaderValue(headers[i])), "chunked") {
      assert headers[i] in headers && Kind(headers[i]).ChunkedCoding?;
    }
  }

  /** When a head is framed, and with which length: every Content-Length line declares one and no
      Transfer-Encoding line mentions chunked; then the last Content-Length line counts, and without any only a
      method that carries no body is framed, as empty. */
  lemma FramingMeans(lines: seq<Bytes>, n: nat)
    requires |lines| > 0
    ensures var headers := lines[1..];
            Framing(lines) == Some(n) <==>
            && (forall i: nat :: Named(headers, i, "content-length") ==> Declared(headers, i).Some?)
            && (forall i: nat :: Named(headers, i, "transfer-encoding") ==> !Contains(Lower(HeaderValue(headers[i])), "chunked"))
            && (|| (exists i: nat :: LastNamed(headers, i, "content-length") && Declared(headers, i) == Some(n))
                || (&& (forall i: nat :: !Named(headers, i, "content-length"))
                    && Method(lines[0]) in {"GET", "HEAD", "DELETE", "OPTIONS", "TRACE", "CONNECT"}
                    && n == 0))
  {
    hide HeaderName, HeaderValue, ParseLength, Lower, Method, Malformed, Chunked, LastLength;
    ProblemsRead(lines[1..]);
    LastLengthReads(lines[1..]);
  }

  /** The method is the text before the first space, in capitals. */
  lemma MethodReads(verb: Bytes, rest: Bytes)
    requires ' ' !in verb
    ensures Method(verb + " " + rest) == Upper(verb) && Method(verb) == Upper(verb)
  {
    var line := verb + " " + rest;
    SingletonUnbordered(' ');
    AbsentSeparator(verb, ' ');
    IndexOfSeparator(verb, " ", rest);
    assert line[..|verb|] == verb;
  }

  /** A head that has not ended is collected up to 256 KiB and given up on beyond. */
  lemma HeadCap(s: Bytes, ctxs: Contexts, n: nat)
    requires !Contains(s, "\r\n\r\n")
    ensures AtHead(s, ctxs, n) == if |s| > 262144 then Outcome(s, State(Raw, n)) else Outcome("", State(Head(s), n))
  {
  }

  // ---------------------------------------------------------------- what the stamped head says

  /** The lines with a name, in order. */
  function NamedLines(headers: seq<Bytes>, name: string): seq<Bytes> {
    if headers == [] then []
    else
      var last := headers[|headers| - 1];
      NamedLines(headers[..|headers| - 1], name) + (if HeaderName(last) == name then [last] else [])
  }

  /** One line has this name, and its value is a space and the text. */
  predicate SaysOnce(headers: seq<Bytes>, name: string, text: Bytes) {
    var found := NamedLines(headers, name);
    |found| == 1 && HeaderValue(found[0]) == " " + text
  }

  predicate Attributed(name: string) { name == "x-tasca-task-id" || name == "x-tasca-org-id" }

  lemma {:induction false} NamedAmongKept(headers: seq<Bytes>, name: string)
    ensures NamedLines(Kept(headers), name) == if Attributed(name) then [] else NamedLines(headers, name)
  {
    hide HeaderName, LengthValue, HeaderValue;
    if headers != [] {
      var init, last := headers[..|headers| - 1], headers[|headers| - 1];
      NamedAmongKept(init, name);
      assert Kind(last).Attribution? <==> Attributed(HeaderName(last));
      if !Kind(last).Attribution? {
        assert (Kept(init) + [last])[..|Kept(init)|] == Kept(init);
      } else {
        assert Kept(init) + [] == Kept(init);
      }
    }
  }

  lemma NamedOneMore(headers: seq<Bytes>, last: Bytes, name: string)
    ensures NamedLines(headers + [last], name)
         == NamedLines(headers, name) + (if HeaderName(last) == name then [last] else [])
  {
    assert (headers + [last])[..|headers|] == headers;
  }

  lemma StampReads(value: Bytes)
    ensures HeaderName("X-Tasca-Task-Id: " + value) == "x-tasca-task-id"
    ensures HeaderName("X-Tasca-Org-Id: " + value) == "x-tasca-org-id"
    ensures HeaderValue("X-Tasca-Task-Id: " + value) == " " + value
    ensures HeaderValue("X-Tasca-Org-Id: " + value) == " " + value
  {
    hide Lower, HeaderName, HeaderValue;
    LowerTaskName();
    HeaderReads("", TASK_NAME, "", " " + value);
    HeaderReads("", ORG_NAME, "", " " + value);
    assert "" + TASK_NAME + "" + ":" + (" " + value) == "X-Tasca-Task-Id: " + value;
    assert "" + ORG_NAME + "" + ":" + (" " + value) == "X-Tasca-Org-Id: " + value;
  }

  /** Which lines of a stamped head have which name: the task id and the org id of the context once each, under
      their own names and as the last two lines; nothing under them without a context; and under any other name
      the lines of the request, in order. */
  lemma StampSays(lines: seq<Bytes>, ctx: Option<StampContext>, name: string)
    requires |lines| > 0
    ensures var stamped := Stamped(lines, ctx);
            && stamped[0] == lines[0]
            && (!Attributed(name) ==> NamedLines(stamped[1..], name) == NamedLines(lines[1..], name))
            && (ctx.None? && Attributed(name) ==> NamedLines(stamped[1..], name) == [])
            && (ctx.Some? ==>
                && SaysOnce(stamped[1..], "x-tasca-task-id", Latin1(ctx.value.taskId))
                && SaysOnce(stamped[1..], "x-tasca-org-id", Latin1(ctx.value.orgId))
                && |stamped| >= 3
                && stamped[|stamped| - 2] == "X-Tasca-Task-Id: " + Latin1(ctx.value.taskId)
                && stamped[|stamped| - 1] == "X-Tasca-Org-Id: " + Latin1(ctx.value.orgId))
  {
    hide HeaderName, HeaderValue, NamedLines, Kept;
    var kept := Kept(lines[1..]);
    NamedAmongKept(lines[1..], name);
    var stamped := Stamped(lines, ctx);
    if ctx.None? {
      assert stamped[1..] == kept;
    } else {
      var t, o := "X-Tasca-Task-Id: " + Latin1(ctx.value.taskId), "X-Tasca-Org-Id: " + Latin1(ctx.value.orgId);
      StampReads(Latin1(ctx.value.taskId));
      StampReads(Latin1(ctx.value.orgId));
      assert stamped[1..] == kept + [t] + [o];
      NamedAfterStamps(kept, t, o, name);
      NamedAmongKept(lines[1..], "x-tasca-task-id");
      NamedAmongKept(lines[1..], "x-tasca-org-id");
      NamedAfterStamps(kept, t, o, "x-tasca-task-id");
      NamedAfterStamps(kept, t, o, "x-tasca-org-id");
    }
  }

  lemma NamedAfterStamps(kept: seq<Bytes>, t: Bytes, o: Bytes, name: string)
    requires HeaderName(t) == "x-tasca-task-id" && HeaderName(o) == "x-tasca-org-id"
    ensures NamedLines(kept + [t] + [o], name)
         == NamedLines(kept, name)
            + (if name == "x-tasca-task-id" then [t] else if name == "x-tasca-org-id" then [o] else [])
  {
    hide HeaderName, NamedLines;
    NamedOneMore(kept, t, name);
    NamedOneMore(kept + [t], o, name);
    assert "x-tasca-task-id"[8] != "x-tasca-org-id"[8];
  }

  lemma {:induction false} RestampAt(requests: seq<Request>, ctxs: Contexts, n: nat, i: nat)
    requires i < |requests|
    ensures var r := requests[i];
            Restamp(requests, ctxs, n)[i] == Request(Stamped(r.lines, ctxs(n + i)), r.length, r.body)
  {
    hide Stamped;
    if i > 0 {
      RestampAt(requests[1..], ctxs, n + 1, i - 1);
    }
  }

  /** What the proxy reads at the other end: each request of the connection in its place, with its request line,
      length and body, attributed to the task and the org of the context its head found, and to no other. */
  lemma ReadBackSays(s: Bytes, ctxs: Contexts, n: nat, i: nat, name: string)
    requires SafeRun(ctxs, n, |Parse(s).requests|) && i < |Parse(s).requests|
    ensures var sent, received := Parse(s).requests, Parse(AtHead(s, ctxs, n).emitted).requests;
            && |received| == |sent|
            && received[i].lines[0] == sent[i].lines[0]
            && received[i].length == sent[i].length && received[i].body == sent[i].body
            && (!Attributed(name) ==> NamedLines(received[i].lines[1..], name) == NamedLines(sent[i].lines[1..], name))
            && match ctxs(n + i)
               case None => Attributed(name) ==> NamedLines(received[i].lines[1..], name) == []
               case Some(c) =>
                 && SaysOnce(received[i].lines[1..], "x-tasca-task-id", Latin1(c.taskId))
                 && SaysOnce(received[i].lines[1..], "x-tasca-org-id", Latin1(c.orgId))
  {
    hide *;
    var _ := ReadBack(s, ctxs, n);
    RestampAt(Parse(s).requests, ctxs, n, i);
    StampSays(Parse(s).requests[i].lines, ctxs(n + i), name);
  }
}
