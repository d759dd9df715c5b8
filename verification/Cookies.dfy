/** Cookies: serializing a Set-Cookie, and the two readers of a Cookie header. */
module Cookies {
  import opened Search
  import opened Text
  import opened PercentCoding

  datatype SameSite = Lax | Strict | NoSite

  datatype CookieOptions = CookieOptions(path: Option<string>, httpOnly: bool, secure: bool, sameSite: Option<SameSite>, maxAge: Option<real>)

  /** A cookie to be set. */
  datatype Cookie = Cookie(name: string, value: string, opts: CookieOptions)

  // ---------------------------------------------------------------- reading

  /** The trimmed name and raw value of one part; None for noise without "=". */
  function Part(part: string): Option<(string, string)> {
    var eq := IndexOf(part, "=");
    if eq < 0 then None else Some((Trim(part[..eq]), Trim(part[eq + 1..])))
  }

  /** A malformed percent sequence is kept as it is. */
  function Lenient(raw: string): string {
    var d := Decode(raw);
    if d.Some? then d.value else raw
  }

  /** The raw values given to a name, in order. */
  function Values(parts: seq<string>, name: string): seq<string>
    decreases |parts|
  {
    if parts == [] then []
    else
      var p := Part(parts[0]);
      (if p.Some? && p.value.0 == name then [p.value.1] else []) + Values(parts[1..], name)
  }

  lemma ValuesSnoc(parts: seq<string>, last: string, name: string)
    ensures var p := Part(last);
            Values(parts + [last], name) == Values(parts, name) + (if p.Some? && p.value.0 == name then [p.value.1] else [])
    decreases |parts|
  {
    hide Part;
    if parts == [] {
      assert parts + [last] == [last] && |[last][1..]| == 0;
    } else {
      ValuesSnoc(parts[1..], last, name);
      assert (parts + [last])[1..] == parts[1..] + [last];
    }
  }

  /** The parts of a header; a missing and an empty header have none. */
  function Parts(header: Option<string>): seq<string> {
    if header.None? || header.value == "" then [] else Split(header.value, ";")
  }

  /** What a parsed header says of a name: its last value. */
  ghost predicate ReadsAs(out: map<string, string>, parts: seq<string>) {
    forall name: string ::
      && (name in out <==> name != "" && Values(parts, name) != [])
      && (name in out ==> out[name] == Lenient(Values(parts, name)[|Values(parts, name)| - 1]))
  }

  method ParseCookies(header: Option<string>) returns (out: map<string, string>)
    ensures ReadsAs(out, Parts(header))
  {
    out := map[];
    if header.None? || header.value == "" {
      return;
    }
    var parts := Split(header.value, ";");
    for i := 0 to |parts|
      invariant ReadsAs(out, parts[..i])
    {
      assert parts[..i + 1] == parts[..i] + [parts[i]];
      ReadsMore(out, parts[..i], parts[i]);
      var eq := IndexOf(parts[i], "=");
      if eq < 0 {
        continue;
      }
      var name := Trim(parts[i][..eq]);
      if name == "" {
        continue;
      }
      var raw := Trim(parts[i][eq + 1..]);
      var decoded := Decode(raw);
      if decoded.Some? {
        out := out[name := decoded.value];
      } else {
        out := out[name := raw];
      }
    }
    assert parts[..|parts|] == parts;
  }

  lemma ReadsMore(out: map<string, string>, parts: seq<string>, last: string)
    requires ReadsAs(out, parts)
    ensures var p := Part(last);
            ReadsAs(if p.Some? && p.value.0 != "" then out[p.value.0 := Lenient(p.value.1)] else out, parts + [last])
  {
    hide Part, Values, Lenient;
    forall name: string ensures var p := Part(last);
      Values(parts + [last], name) == Values(parts, name) + (if p.Some? && p.value.0 == name then [p.value.1] else [])
    {
      ValuesSnoc(parts, last, name);
    }
  }

  /** Threw: the first value of the name is malformed. */
  datatype Read = Missing | Found(value: string) | Threw

  function FirstValue(parts: seq<string>, name: string): Read {
    var values := Values(parts, name);
    if values == [] then Missing
    else
      var d := Decode(values[0]);
      if d.Some? then Found(d.value) else Threw
  }

  method ReadCookie(header: Option<string>, name: string) returns (r: Read)
    ensures r == FirstValue(Parts(header), name)
  {
    hide IndexOf, IndexFrom, Trim, Decode, Split;
    if header.None? || header.value == "" {
      return Missing;
    }
    var parts := Split(header.value, ";");
    assert parts[0..] == parts;
    for i := 0 to |parts|
      invariant FirstValue(parts, name) == FirstValue(parts[i..], name)
    {
      assert parts[i..][0] == parts[i] && parts[i..][1..] == parts[i + 1..];
      var eq := IndexOf(parts[i], "=");
      if eq == -1 {
        continue;
      }
      if Trim(parts[i][..eq]) == name {
        var d := Decode(Trim(parts[i][eq + 1..]));
        return if d.Some? then Found(d.value) else Threw;
      }
    }
    r := Missing;
  }

  /** What parseCookies says of a name, as an answer of readCookie. */
  function Parsed(out: map<string, string>, name: string): Read {
    if name in out then Found(out[name]) else Missing
  }

  // ---------------------------------------------------------------- where the readers agree

  predicate Names(part: string, name: string) { Part(part).Some? && Part(part).value.0 == name }

  ghost predicate FirstAt(parts: seq<string>, name: string, i: nat) {
    i < |parts| && Names(parts[i], name) && forall k :: 0 <= k < i ==> !Names(parts[k], name)
  }

  ghost predicate LastAt(parts: seq<string>, name: string, i: nat) {
    i < |parts| && Names(parts[i], name) && forall k :: i < k < |parts| ==> !Names(parts[k], name)
  }

  lemma {:induction false} NoValues(parts: seq<string>, name: string)
    requires forall k :: 0 <= k < |parts| ==> !Names(parts[k], name)
    ensures Values(parts, name) == []
    decreases |parts|
  {
    hide Part;
    if parts != [] {
      assert !Names(parts[0], name);
      NoValues(parts[1..], name);
    }
  }

  lemma {:induction false} FirstOfValues(parts: seq<string>, name: string, i: nat)
    requires FirstAt(parts, name, i)
    ensures Values(parts, name) != [] && Values(parts, name)[0] == Part(parts[i]).value.1
    decreases |parts|
  {
    hide Part;
    if i > 0 {
      assert !Names(parts[0], name);
      FirstOfValues(parts[1..], name, i - 1);
    }
  }

  lemma {:induction false} LastOfValues(parts: seq<string>, name: string, i: nat)
    requires LastAt(parts, name, i)
    ensures var values := Values(parts, name);
            values != [] && values[|values| - 1] == Part(parts[i]).value.1
    decreases |parts|
  {
    hide Part;
    if i > 0 {
      LastOfValues(parts[1..], name, i - 1);
    } else {
      NoValues(parts[1..], name);
    }
  }

  /** A name given first at i and last at j: the readers agree on it exactly when the first value is well formed
      and its text is the last one's - decoded, or as it stands if that one is malformed. */
  lemma RepeatedName(out: map<string, string>, parts: seq<string>, name: string, i: nat, j: nat)
    requires ReadsAs(out, parts) && name != "" && FirstAt(parts, name, i) && LastAt(parts, name, j)
    ensures FirstValue(parts, name) == Parsed(out, name) <==>
            Decode(Part(parts[i]).value.1) == Some(Lenient(Part(parts[j]).value.1))
  {
    hide Values, Part, Lenient, Decode;
    FirstOfValues(parts, name, i);
    LastOfValues(parts, name, j);
  }

  /** No name is given twice. */
  ghost predicate NoRepeats(parts: seq<string>) {
    forall i, j, name :: 0 <= i < j < |parts| && name != "" && Names(parts[i], name) ==> !Names(parts[j], name)
  }

  predicate Named(part: string) { Part(part).Some? && Part(part).value.0 != "" }

  /** Every value that has a name is a percent-encoding. */
  ghost predicate WellFormedValues(parts: seq<string>) {
    forall i :: 0 <= i < |parts| && Named(parts[i]) ==> Decode(Part(parts[i]).value.1).Some?
  }

  ghost predicate ReadersAgree(out: map<string, string>, parts: seq<string>) {
    forall name: string :: name != "" ==> FirstValue(parts, name) == Parsed(out, name)
  }

  /** On a header that gives no name twice, the two readers agree on every name if and only if every value is well
      formed: readCookie throws on a malformed one, parseCookies keeps its text. */
  lemma ReadersAgreeExactly(out: map<string, string>, parts: seq<string>)
    requires ReadsAs(out, parts) && NoRepeats(parts)
    ensures ReadersAgree(out, parts) <==> WellFormedValues(parts)
  {
    hide Values, Part, Decode, FirstValue, Parsed, ReadsAs;
    forall i | 0 <= i < |parts| && Named(parts[i])
      ensures var (name, raw) := Part(parts[i]).value;
              FirstValue(parts, name) == Parsed(out, name) <==> Decode(raw).Some?
    {
      OnlyOnce(parts, i);
      RepeatedName(out, parts, Part(parts[i]).value.0, i, i);
    }
    forall name: string | name != "" && forall i :: 0 <= i < |parts| ==> !Names(parts[i], name)
      ensures FirstValue(parts, name) == Parsed(out, name)
    {
      BothMiss(out, parts, name);
    }
    if WellFormedValues(parts) {
      forall name: string | name != "" ensures FirstValue(parts, name) == Parsed(out, name) {
        if i :| 0 <= i < |parts| && Names(parts[i], name) {
          assert Named(parts[i]);
        }
      }
    }
  }

  lemma OnlyOnce(parts: seq<string>, i: nat)
    requires NoRepeats(parts) && i < |parts| && Named(parts[i])
    ensures var name := Part(parts[i]).value.0; FirstAt(parts, name, i) && LastAt(parts, name, i)
  {
    hide Part;
    assert Names(parts[i], Part(parts[i]).value.0);
  }

  lemma BothMiss(out: map<string, string>, parts: seq<string>, name: string)
    requires ReadsAs(out, parts) && name != "" && forall i :: 0 <= i < |parts| ==> !Names(parts[i], name)
    ensures FirstValue(parts, name) == Parsed(out, name) == Missing
  {
    hide Part;
    NoValues(parts, name);
  }

  lemma PartsOf(pieces: seq<string>)
    requires |pieces| > 0 && Join(pieces, ";") != "" && forall i :: 0 <= i < |pieces| ==> ';' !in pieces[i]
    ensures Parts(Some(Join(pieces, ";"))) == pieces
  {
    SingletonUnbordered(';');
    forall i | 0 <= i < |pieces| ensures !Contains(pieces[i], ";") {
      AbsentSeparator(pieces[i], ';');
    }
    SplitOfJoin(pieces, ";");
  }

  lemma PartOf(name: string, raw: string, space: string)
    requires (space == "" || space == " ") && '=' !in name && name != "" && !IsSpace(name[0]) && !IsSpace(name[|name| - 1])
    requires raw != "" && !IsSpace(raw[0]) && !IsSpace(raw[|raw| - 1])
    ensures Part(space + name + "=" + raw) == Some((name, raw))
  {
    hide IsSpace, IndexOf, TrimStart, TrimEnd;
    var head := space + name;
    var part := head + "=" + raw;
    AbsentSeparator(head, '=');
    SingletonUnbordered('=');
    IndexOfSeparator(head, "=", raw);
    assert part[..|head|] == head && part[|head| + 1..] == raw;
    SpaceIsTrimmed(name, space);
    TrimKeeps(raw);
  }

  /** A name given twice: one reader takes the first value, the other the last. */
  lemma TwiceDiffers(out: map<string, string>)
    requires ReadsAs(out, Parts(Some("a=1; a=2")))
    ensures FirstValue(Parts(Some("a=1; a=2")), "a") == Found("1") && Parsed(out, "a") == Found("2")
  {
    hide Part, Values, Split, ReadsAs, IndexOf, Trim, Decode;
    var pieces := ["a=1", " a=2"];
    assert Join(pieces, ";") == "a=1; a=2" by {
      assert Join([" a=2"], ";") == " a=2" && pieces[1..] == [" a=2"];
    }
    PartsOf(pieces);
    assert "" + "a" + "=" + "1" == pieces[0] && " " + "a" + "=" + "2" == pieces[1];
    PartOf("a", "1", "");
    PartOf("a", "2", " ");
    FirstOfValues(pieces, "a", 0);
    LastOfValues(pieces, "a", 1);
    PlainDigit("1");
    PlainDigit("2");
    LastRead(out, pieces, "a", 1);
  }

  lemma PlainDigit(s: string)
    requires |s| == 1 && s[0] != '%'
    ensures Decode(s) == Some(s)
  {
    assert DecodeChar(s) == Some((s[0], 1)) && s[1..] == "";
    assert Decode(s[1..]) == Some("") && [s[0]] + "" == s;
  }

  lemma LastRead(out: map<string, string>, parts: seq<string>, name: string, j: nat)
    requires ReadsAs(out, parts) && name != "" && LastAt(parts, name, j)
    ensures Parsed(out, name) == Found(Lenient(Part(parts[j]).value.1))
  {
    hide Part, Lenient;
    LastOfValues(parts, name, j);
  }

  /** A malformed value: one reader throws, the other keeps the text. */
  lemma MalformedDiffers(out: map<string, string>)
    requires ReadsAs(out, Parts(Some("a=%")))
    ensures FirstValue(Parts(Some("a=%")), "a") == Threw && Parsed(out, "a") == Found("%")
  {
    hide Part, Values, Split, ReadsAs, IndexOf, Trim;
    var pieces := ["a=%"];
    PartsOf(pieces);
    assert "" + "a" + "=" + "%" == pieces[0];
    PartOf("a", "%", "");
    FirstOfValues(pieces, "a", 0);
    assert Decode("%").None?;
    LastRead(out, pieces, "a", 0);
  }

  // ---------------------------------------------------------------- writing

  function Number(n: int): string { if n < 0 then "-" + Decimal(-n) else Decimal(n) }

  function SiteName(s: SameSite): string {
    match s
    case Lax => "Lax"
    case Strict => "Strict"
    case NoSite => "None"
  }

  function Pair(c: Cookie): string { c.name + "=" + Encode(c.value) }

  function PathOf(opts: CookieOptions): string { "Path=" + if opts.path.Some? then opts.path.value else "/" }

  function Segments(c: Cookie): seq<string> {
    [Pair(c)] + [PathOf(c.opts)]
    + (if c.opts.maxAge.Some? then ["Max-Age=" + Number(c.opts.maxAge.value.Floor)] else [])
    + (if c.opts.httpOnly then ["HttpOnly"] else [])
    + (if c.opts.secure then ["Secure"] else [])
    + (if c.opts.sameSite.Some? then ["SameSite=" + SiteName(c.opts.sameSite.value)] else [])
  }

  function SetCookie(c: Cookie): string { Join(Segments(c), "; ") }

  method SerializeCookie(name: string, value: string, opts: CookieOptions) returns (header: string)
    ensures header == SetCookie(Cookie(name, value, opts))
  {
    hide Number, SiteName, PathOf, Encode;
    assert forall s: seq<string> :: s + [] == s;
    var segments := [name + "=" + Encode(value)];
    segments := segments + [PathOf(opts)];
    if opts.maxAge.Some? {
      segments := segments + ["Max-Age=" + Number(opts.maxAge.value.Floor)];
    }
    if opts.httpOnly {
      segments := segments + ["HttpOnly"];
    }
    if opts.secure {
      segments := segments + ["Secure"];
    }
    if opts.sameSite.Some? {
      segments := segments + ["SameSite=" + SiteName(opts.sameSite.value)];
    }
    header := Join(segments, "; ");
  }

  /** A browser keeps the text before the first ";" (section 5.2 of RFC 6265). */
  function Kept(setCookie: string): string { Split(setCookie, ";")[0] }

  /** Any name that neither separators nor trimming can change. */
  predicate LegalName(name: string) {
    name != "" && !IsSpace(name[0]) && !IsSpace(name[|name| - 1]) && forall i :: 0 <= i < |name| ==> name[i] != ';' && name[i] != '='
  }

  lemma PairHasNoSemicolon(c: Cookie)
    requires LegalName(c.name)
    ensures forall i :: 0 <= i < |Pair(c)| ==> Pair(c)[i] != ';'
  {
    EncodedIsPlain(c.value);
  }

  /** Whatever its attributes, the browser keeps exactly name=value of a cookie. */
  lemma BrowserKeepsThePair(c: Cookie)
    requires LegalName(c.name)
    ensures Kept(SetCookie(c)) == Pair(c)
  {
    hide Pair, PathOf, Number, SiteName, LegalName;
    PairHasNoSemicolon(c);
    AbsentSeparator(Pair(c), ';');
    SingletonUnbordered(';');
    var segments := Segments(c);
    assert segments[0] == Pair(c) && |segments| > 1;
    KeepsFirst(segments);
  }

  lemma KeepsFirst(segments: seq<string>)
    requires |segments| > 1 && !Contains(segments[0], ";") && Unbordered(";")
    ensures Kept(Join(segments, "; ")) == segments[0]
  {
    var s, rest := Join(segments, "; "), " " + Join(segments[1..], "; ");
    hide Join, IndexOf, IndexFrom, OccursAt;
    Regroup(segments[0], Join(segments[1..], "; "));
    IndexOfSeparator(segments[0], ";", rest);
    assert s[..|segments[0]|] == segments[0];
  }

  // ---------------------------------------------------------------- attributes

  lemma {:induction false} DecimalPlain(n: nat)
    ensures forall i :: 0 <= i < |Decimal(n)| ==> Decimal(n)[i] in "0123456789"
  {
    if n >= 10 {
      DecimalPlain(n / 10);
    }
  }

  predicate NoSemicolons(pieces: seq<string>) { forall i :: 0 <= i < |pieces| ==> ';' !in pieces[i] }

  lemma BothPlain(a: seq<string>, b: seq<string>)
    requires NoSemicolons(a) && NoSemicolons(b)
    ensures NoSemicolons(a + b)
  {
  }

  lemma ValuesPlain(o: CookieOptions)
    requires o.path.Some? ==> ';' !in o.path.value
    ensures ';' !in PathOf(o)
    ensures o.maxAge.Some? ==> ';' !in "Max-Age=" + Number(o.maxAge.value.Floor)
  {
    hide Decimal;
    if o.maxAge.Some? {
      var age := o.maxAge.value.Floor;
      DecimalPlain(if age < 0 then -age else age);
    }
  }

  lemma SegmentsPlain(c: Cookie)
    requires LegalName(c.name) && (c.opts.path.Some? ==> ';' !in c.opts.path.value)
    ensures NoSemicolons(Segments(c))
  {
    hide Pair, LegalName, PathOf, Number, NoSemicolons;
    var o := c.opts;
    PairHasNoSemicolon(c);
    ValuesPlain(o);
    var age := if o.maxAge.Some? then ["Max-Age=" + Number(o.maxAge.value.Floor)] else [];
    var http, secure := if o.httpOnly then ["HttpOnly"] else [], if o.secure then ["Secure"] else [];
    var site := if o.sameSite.Some? then ["SameSite=" + SiteName(o.sameSite.value)] else [];
    OnePlain(Pair(c));
    OnePlain(PathOf(o));
    OnePlain("HttpOnly");
    OnePlain("Secure");
    if o.maxAge.Some? {
      OnePlain("Max-Age=" + Number(o.maxAge.value.Floor));
    }
    if o.sameSite.Some? {
      OnePlain("SameSite=" + SiteName(o.sameSite.value));
    }
    BothPlain([Pair(c)], [PathOf(o)]);
    BothPlain([Pair(c)] + [PathOf(o)], age);
    BothPlain([Pair(c)] + [PathOf(o)] + age, http);
    BothPlain([Pair(c)] + [PathOf(o)] + age + http, secure);
    BothPlain([Pair(c)] + [PathOf(o)] + age + http + secure, site);
  }

  lemma OnePlain(text: string)
    requires ';' !in text
    ensures NoSemicolons([text]) && NoSemicolons([])
  {
  }

  function Indented(pieces: seq<string>): seq<string> {
    seq(|pieces|, i requires 0 <= i < |pieces| => " " + pieces[i])
  }

  lemma IndentedParts(pair: string, a: seq<string>, b: seq<string>)
    ensures Spaced([pair] + a) == [pair] + Indented(a)
    ensures Indented(a + b) == Indented(a) + Indented(b)
  {
  }

  lemma IndentedOne(text: string)
    ensures Indented([text]) == [" " + text] && Indented([]) == []
  {
  }

  /** The attributes as a browser finds them between the semicolons (section 5.2 of RFC 6265): each of them once,
      exactly when it is asked for, with its value, and no other - in particular no Domain. */
  lemma AttributesReadBack(c: Cookie)
    requires LegalName(c.name) && (c.opts.path.Some? ==> ';' !in c.opts.path.value)
    ensures var (o, pieces) := (c.opts, Split(SetCookie(c), ";"));
            var age := if o.maxAge.Some? then o.maxAge.value.Floor else 0;
            pieces == [c.name + "=" + Encode(c.value)]
                      + [" Path=" + (if o.path.Some? then o.path.value else "/")]
                      + (if o.maxAge.Some? then [" Max-Age=" + (if age < 0 then "-" + Decimal(-age) else Decimal(age))] else [])
                      + (if o.httpOnly then [" HttpOnly"] else [])
                      + (if o.secure then [" Secure"] else [])
                      + (match o.sameSite
                         case None => []
                         case Some(Lax) => [" SameSite=Lax"]
                         case Some(Strict) => [" SameSite=Strict"]
                         case Some(NoSite) => [" SameSite=None"])
  {
    hide Decimal, Encode, LegalName, Split, Join, Spaced, Indented, PathOf, SiteName, Segments;
    var segments := Segments(c);
    SegmentsPlain(c);
    HasPair(c);
    JoinSpaced(segments);
    SpacedLength(segments);
    forall i | 0 <= i < |segments| ensures !Contains(Spaced(segments)[i], ";") {
      AbsentSeparator(Spaced(segments)[i], ';');
    }
    SingletonUnbordered(';');
    SplitOfJoin(Spaced(segments), ";");
    SpacedSegments(c);
  }

  lemma HasPair(c: Cookie)
    ensures |Segments(c)| > 0
  {
  }

  lemma SpacedLength(pieces: seq<string>)
    ensures |Spaced(pieces)| == |pieces|
    ensures NoSemicolons(pieces) ==> NoSemicolons(Spaced(pieces))
  {
  }

  lemma IndentedFlags(o: CookieOptions)
    ensures Indented(if o.httpOnly then ["HttpOnly"] else []) == if o.httpOnly then [" HttpOnly"] else []
    ensures Indented(if o.secure then ["Secure"] else []) == if o.secure then [" Secure"] else []
  {
    assert " " + "HttpOnly" == " HttpOnly" && " " + "Secure" == " Secure";
    IndentedOne("HttpOnly");
    IndentedOne("Secure");
  }

  lemma IndentedSite(site: Option<SameSite>)
    ensures Indented(if site.Some? then ["SameSite=" + SiteName(site.value)] else [])
            == match site
               case None => []
               case Some(Lax) => [" SameSite=Lax"]
               case Some(Strict) => [" SameSite=Strict"]
               case Some(NoSite) => [" SameSite=None"]
  {
    match site
    case None => IndentedOne("");
    case Some(Lax) => assert " " + ("SameSite=" + "Lax") == " SameSite=Lax"; IndentedOne("SameSite=" + "Lax");
    case Some(Strict) => assert " " + ("SameSite=" + "Strict") == " SameSite=Strict"; IndentedOne("SameSite=" + "Strict");
    case Some(NoSite) => assert " " + ("SameSite=" + "None") == " SameSite=None"; IndentedOne("SameSite=" + "None");
  }

  lemma IndentedValues(o: CookieOptions)
    ensures Indented([PathOf(o)]) == [" Path=" + (if o.path.Some? then o.path.value else "/")]
    ensures Indented(if o.maxAge.Some? then ["Max-Age=" + Number(o.maxAge.value.Floor)] else [])
            == if o.maxAge.Some? then [" Max-Age=" + Number(o.maxAge.value.Floor)] else []
  {
    hide Number;
    IndentedOne(PathOf(o));
    assert " " + ("Path=" + (if o.path.Some? then o.path.value else "/")) == " Path=" + (if o.path.Some? then o.path.value else "/");
    if o.maxAge.Some? {
      IndentedOne("Max-Age=" + Number(o.maxAge.value.Floor));
      assert " " + ("Max-Age=" + Number(o.maxAge.value.Floor)) == " Max-Age=" + Number(o.maxAge.value.Floor);
    }
  }

  lemma SpacedSegments(c: Cookie)
    ensures var o := c.opts;
            Spaced(Segments(c))
            == [c.name + "=" + Encode(c.value)]
               + [" Path=" + (if o.path.Some? then o.path.value else "/")]
               + (if o.maxAge.Some? then [" Max-Age=" + Number(o.maxAge.value.Floor)] else [])
               + (if o.httpOnly then [" HttpOnly"] else [])
               + (if o.secure then [" Secure"] else [])
               + (match o.sameSite
                  case None => []
                  case Some(Lax) => [" SameSite=Lax"]
                  case Some(Strict) => [" SameSite=Strict"]
                  case Some(NoSite) => [" SameSite=None"])
  {
    hide Number, Encode, Spaced, Indented, PathOf, SiteName;
    var o := c.opts;
    var path := [PathOf(o)];
    var age := if o.maxAge.Some? then ["Max-Age=" + Number(o.maxAge.value.Floor)] else [];
    var http := if o.httpOnly then ["HttpOnly"] else [];
    var secure := if o.secure then ["Secure"] else [];
    var site := if o.sameSite.Some? then ["SameSite=" + SiteName(o.sameSite.value)] else [];
    InOneRow([Pair(c)], path, age, http, secure, site);
    IndentedParts(Pair(c), path + age + http + secure + site, []);
    IndentedParts("", path + age + http + secure, site);
    IndentedParts("", path + age + http, secure);
    IndentedParts("", path + age, http);
    IndentedParts("", path, age);
    IndentedValues(o);
    IndentedFlags(o);
    IndentedSite(o.sameSite);
    InOneRow([Pair(c)], Indented(path), Indented(age), Indented(http), Indented(secure), Indented(site));
  }

  lemma InOneRow(p: seq<string>, a: seq<string>, b: seq<string>, c: seq<string>, d: seq<string>, e: seq<string>)
    ensures p + (a + b + c + d + e) == p + a + b + c + d + e
  {
  }

  // ---------------------------------------------------------------- round trip

  function Pairs(cookies: seq<Cookie>): seq<string> {
    seq(|cookies|, i requires 0 <= i < |cookies| => Pair(cookies[i]))
  }

  /** The Cookie header a browser sends for these cookies (section 4.2.1 of RFC 6265). */
  function CookieHeader(cookies: seq<Cookie>): Option<string> {
    if cookies == [] then None
    else Some(Join(seq(|cookies|, i requires 0 <= i < |cookies| => Kept(SetCookie(cookies[i]))), "; "))
  }

  /** The pieces between semicolons: all but the first start with a space. */
  function Spaced(pieces: seq<string>): seq<string> {
    seq(|pieces|, i requires 0 <= i < |pieces| => if i == 0 then pieces[0] else " " + pieces[i])
  }

  lemma JoinSpaced(pieces: seq<string>)
    requires |pieces| > 0
    ensures Join(pieces, "; ") == Join(Spaced(pieces), ";")
    decreases |pieces|
  {
    if |pieces| > 1 {
      hide Join, Spaced;
      var rest := pieces[1..];
      JoinSpaced(rest);
      FirstSpaced(rest, " ");
      SpacedCons(pieces);
      assert pieces == [pieces[0]] + rest;
      JoinCons(pieces[0], Spaced(rest)[0 := " " + rest[0]], ";");
      JoinCons(pieces[0], rest, "; ");
      Regroup(pieces[0], Join(rest, "; "));
    } else {
      assert Spaced(pieces) == pieces;
    }
  }

  lemma Regroup(a: string, b: string)
    ensures a + "; " + b == a + ";" + (" " + b)
  {
  }

  lemma SpacedCons(pieces: seq<string>)
    requires |pieces| > 1
    ensures |Spaced(pieces[1..])| > 0
    ensures Spaced(pieces) == [pieces[0]] + Spaced(pieces[1..])[0 := " " + pieces[1..][0]]
  {
  }

  lemma FirstSpaced(pieces: seq<string>, space: string)
    requires |pieces| > 0
    ensures Join(Spaced(pieces)[0 := space + pieces[0]], ";") == space + Join(Spaced(pieces), ";")
  {
    var spaced := Spaced(pieces);
    if |pieces| > 1 {
      assert spaced[0 := space + pieces[0]][1..] == spaced[1..];
    }
  }

  /** One piece of the header reads back as its cookie, with or without the space before it. */
  lemma PartOfPair(c: Cookie, space: string)
    requires LegalName(c.name) && (space == "" || space == " ")
    ensures Part(space + Pair(c)) == Some((c.name, Encode(c.value)))
  {
    hide IsSpace, Encode, IndexOf, TrimStart, TrimEnd;
    var head := space + c.name;
    var part := space + Pair(c);
    assert part == head + "=" + Encode(c.value);
    AbsentSeparator(head, '=');
    SingletonUnbordered('=');
    IndexOfSeparator(head, "=", Encode(c.value));
    assert part[..|head|] == head && part[|head| + 1..] == Encode(c.value);
    SpaceIsTrimmed(c.name, space);
    EncodedIsPlain(c.value);
    PlainIsNoSpace(Encode(c.value));
    TrimKeeps(Encode(c.value));
  }

  lemma SpaceIsTrimmed(name: string, space: string)
    requires name != "" && !IsSpace(name[0]) && !IsSpace(name[|name| - 1]) && (space == "" || space == " ")
    ensures Trim(space + name) == name
  {
    TrimKeeps(name);
    if space == " " {
      assert (space + name)[1..] == name;
      assert TrimStart(space + name) == TrimStart(name);
    } else {
      assert space + name == name;
    }
  }

  lemma PlainIsNoSpace(s: string)
    requires forall i :: 0 <= i < |s| ==> Unreserved(s[i]) || s[i] == '%'
    ensures s != "" ==> !IsSpace(s[0]) && !IsSpace(s[|s| - 1])
  {
    if s != "" {
      PlainChar(s[0]);
      PlainChar(s[|s| - 1]);
    }
  }

  lemma PlainChar(c: char)
    ensures Unreserved(c) || c == '%' ==> !IsSpace(c)
  {
  }

  ghost predicate Distinct(cookies: seq<Cookie>) {
    forall i, j :: 0 <= i < j < |cookies| ==> cookies[i].name != cookies[j].name
  }

  ghost predicate AllLegal(cookies: seq<Cookie>) {
    forall i :: 0 <= i < |cookies| ==> LegalName(cookies[i].name)
  }

  lemma {:induction false} HeaderParts(cookies: seq<Cookie>)
    requires AllLegal(cookies)
    ensures Parts(CookieHeader(cookies)) == Spaced(Pairs(cookies))
  {
    hide Pair, SetCookie, Kept, LegalName;
    if cookies != [] {
      var kept := seq(|cookies|, i requires 0 <= i < |cookies| => Kept(SetCookie(cookies[i])));
      forall i | 0 <= i < |cookies| ensures kept[i] == Pair(cookies[i]) && !Contains(Spaced(Pairs(cookies))[i], ";") {
        BrowserKeepsThePair(cookies[i]);
        PairHasNoSemicolon(cookies[i]);
        AbsentSeparator(Spaced(Pairs(cookies))[i], ';');
      }
      assert kept == Pairs(cookies);
      JoinSpaced(Pairs(cookies));
      SingletonUnbordered(';');
      SplitOfJoin(Spaced(Pairs(cookies)), ";");
      HeaderIsNotEmpty(cookies);
    }
  }

  lemma HeaderIsNotEmpty(cookies: seq<Cookie>)
    requires cookies != [] && AllLegal(cookies)
    ensures CookieHeader(cookies).value != ""
  {
    hide SetCookie, Kept;
    BrowserKeepsThePair(cookies[0]);
  }

  lemma PartOfHeader(cookies: seq<Cookie>, i: nat)
    requires AllLegal(cookies) && i < |cookies|
    ensures Part(Spaced(Pairs(cookies))[i]) == Some((cookies[i].name, Encode(cookies[i].value)))
  {
    hide Pair, LegalName, Part, Encode;
    PartOfPair(cookies[i], if i == 0 then "" else " ");
    assert "" + Pair(cookies[i]) == Pair(cookies[i]);
  }

  /** The raw values of a name among the last cookies of the list. */
  lemma {:induction false} ValuesOfHeader(cookies: seq<Cookie>, from: nat, name: string)
    requires AllLegal(cookies) && Distinct(cookies) && from <= |cookies|
    ensures var values := Values(Spaced(Pairs(cookies))[from..], name);
            && (forall i :: from <= i < |cookies| && cookies[i].name == name ==> values == [Encode(cookies[i].value)])
            && ((forall i :: from <= i < |cookies| ==> cookies[i].name != name) ==> values == [])
    decreases |cookies| - from
  {
    hide Pair, LegalName, Part, Encode;
    var parts := Spaced(Pairs(cookies));
    if from < |cookies| {
      PartOfHeader(cookies, from);
      hide Spaced, Pairs;
      assert parts[from..][0] == parts[from] && parts[from..][1..] == parts[from + 1..];
      ValuesOfHeader(cookies, from + 1, name);
    }
  }

  /**
    The cookie round trip: whatever is set with any legal names, any values and any attributes comes back from
    the header the browser makes of it, as exactly that map, and readCookie reads the same.
   */
  lemma CookieRoundTrip(cookies: seq<Cookie>, out: map<string, string>, name: string)
    requires AllLegal(cookies) && Distinct(cookies) && ReadsAs(out, Parts(CookieHeader(cookies))) && name != ""
    ensures name in out <==> exists i :: 0 <= i < |cookies| && cookies[i].name == name
    ensures forall i :: 0 <= i < |cookies| && cookies[i].name == name ==> out[name] == cookies[i].value
    ensures FirstValue(Parts(CookieHeader(cookies)), name) == Parsed(out, name)
  {
    hide Pair, SetCookie, Kept, LegalName, Spaced, Pairs, Values, CookieHeader, Parts;
    HeaderParts(cookies);
    var parts := Spaced(Pairs(cookies));
    ValuesOfHeader(cookies, 0, name);
    assert parts[0..] == parts;
    forall i | 0 <= i < |cookies| && cookies[i].name == name ensures name in out && out[name] == cookies[i].value {
      DecodeOfEncode(cookies[i].value);
    }
    if i :| 0 <= i < |cookies| && cookies[i].name == name {
      assert Values(parts, name) == [Encode(cookies[i].value)];
      DecodeOfEncode(cookies[i].value);
    } else {
      assert Values(parts, name) == [];
    }
    FoundAlike(out, parts, name);
  }

  lemma FoundAlike(out: map<string, string>, parts: seq<string>, name: string)
    requires ReadsAs(out, parts) && name != ""
    requires |Values(parts, name)| <= 1 && forall raw :: raw in Values(parts, name) ==> Decode(raw).Some?
    ensures FirstValue(parts, name) == Parsed(out, name)
  {
    hide Values;
    var values := Values(parts, name);
    if values != [] {
      assert values[0] in values;
    }
  }

  /** Clearing a cookie makes the browser hold the empty value. */
  method ClearCookie(name: string, opts: CookieOptions) returns (header: string)
    requires LegalName(name)
    ensures Kept(header) == name + "=" && header == SetCookie(Cookie(name, "", opts.(maxAge := Some(0.0))))
  {
    header := SerializeCookie(name, "", opts.(maxAge := Some(0.0)));
    BrowserKeepsThePair(Cookie(name, "", opts.(maxAge := Some(0.0))));
  }
}
