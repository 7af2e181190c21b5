/**
 * Contact-form validation: the schema rules, the content checks (suspicious
 * markup, disposable e-mail domains, spam heuristics) and the HTML escaping
 * applied to accepted input. Each regular expression of the helpers is
 * modelled by the predicate describing exactly the strings it finds a match in.
 */
module Validation {
  import opened Wrappers
  import opened JsString

  // ---------------------------------------------------------------------------
  // sanitizeText

  /** The entity each escaped character becomes; every other character stays. */
  function Escape(c: char): string {
    if c == '<' then "&lt;"
    else if c == '>' then "&gt;"
    else if c == '"' then "&quot;"
    else if c == '\'' then "&#x27;"
    else if c == '/' then "&#x2F;"
    else [c]
  }

  /** Escaping character by character: the reference definition of the five replacements. */
  function EscapeAll(s: string): string {
    if s == [] then [] else Escape(s[0]) + EscapeAll(s[1..])
  }

  predicate IsMarkupChar(c: char) {
    c == '<' || c == '>' || c == '"' || c == '\'' || c == '/'
  }

  /** The five global replacements of `sanitizeText`, in the source's order. */
  function Replacements(text: string): string {
    var s1 := ReplaceChar(text, '<', "&lt;");
    var s2 := ReplaceChar(s1, '>', "&gt;");
    var s3 := ReplaceChar(s2, '"', "&quot;");
    var s4 := ReplaceChar(s3, '\'', "&#x27;");
    ReplaceChar(s4, '/', "&#x2F;")
  }

  /** `sanitizeText`: the replacements, then `trim`. */
  function SanitizeText(text: string): string {
    Trim(Replacements(text))
  }

  lemma ReplaceCharAbsent(s: string, c: char, rep: string)
    requires c !in s
    ensures ReplaceChar(s, c, rep) == s
  {
    if s != [] {
      assert c !in s[1..];
      ReplaceCharAbsent(s[1..], c, rep);
    }
  }

  lemma ReplaceCharSingle(d: char, c: char, rep: string)
    ensures ReplaceChar([d], c, rep) == if d == c then rep else [d]
  {
    assert [d][1..] == [];
  }

  lemma {:induction false} ReplaceCharConcat(s: string, a: string, b: string, c: char, rep: string)
    requires s == a + b
    ensures ReplaceChar(s, c, rep) == ReplaceChar(a, c, rep) + ReplaceChar(b, c, rep)
    decreases |a|
  {
    if a != [] {
      assert s[1..] == a[1..] + b;
      ReplaceCharConcat(s[1..], a[1..], b, c, rep);
    } else {
      assert s == b;
    }
  }

  /** The replacements from the second one on leave a string without `> " ' /` alone. */
  lemma FromSecond(t: string)
    requires '>' !in t && '"' !in t && '\'' !in t && '/' !in t
    ensures ReplaceChar(ReplaceChar(ReplaceChar(ReplaceChar(t, '>', "&gt;"), '"', "&quot;"), '\'', "&#x27;"), '/', "&#x2F;") == t
  {
    ReplaceCharAbsent(t, '>', "&gt;");
    FromThird(t);
  }

  lemma FromThird(t: string)
    requires '"' !in t && '\'' !in t && '/' !in t
    ensures ReplaceChar(ReplaceChar(ReplaceChar(t, '"', "&quot;"), '\'', "&#x27;"), '/', "&#x2F;") == t
  {
    ReplaceCharAbsent(t, '"', "&quot;");
    FromFourth(t);
  }

  lemma FromFourth(t: string)
    requires '\'' !in t && '/' !in t
    ensures ReplaceChar(ReplaceChar(t, '\'', "&#x27;"), '/', "&#x2F;") == t
  {
    ReplaceCharAbsent(t, '\'', "&#x27;");
    ReplaceCharAbsent(t, '/', "&#x2F;");
  }

  /** The replacements escape a single character into its entity. */
  lemma ReplacementsOfChar(c: char)
    ensures Replacements([c]) == Escape(c)
  {
    ReplaceCharSingle(c, '<', "&lt;");
    if c == '<' {
      FromSecond("&lt;");
    } else {
      ReplaceCharSingle(c, '>', "&gt;");
      if c == '>' {
        FromThird("&gt;");
      } else {
        ReplaceCharSingle(c, '"', "&quot;");
        if c == '"' {
          FromFourth("&quot;");
        } else {
          ReplaceCharSingle(c, '\'', "&#x27;");
          ReplaceCharSingle(c, '/', "&#x2F;");
          if c == '\'' {
            ReplaceCharAbsent("&#x27;", '/', "&#x2F;");
          }
        }
      }
    }
  }

  /** Replacements distribute over concatenation. */
  lemma ReplacementsConcat(a: string, b: string)
    ensures Replacements(a + b) == Replacements(a) + Replacements(b)
  {
    ReplaceCharConcat(a + b, a, b, '<', "&lt;");
    var a1, b1 := ReplaceChar(a, '<', "&lt;"), ReplaceChar(b, '<', "&lt;");
    ReplaceCharConcat(a1 + b1, a1, b1, '>', "&gt;");
    var a2, b2 := ReplaceChar(a1, '>', "&gt;"), ReplaceChar(b1, '>', "&gt;");
    ReplaceCharConcat(a2 + b2, a2, b2, '"', "&quot;");
    var a3, b3 := ReplaceChar(a2, '"', "&quot;"), ReplaceChar(b2, '"', "&quot;");
    ReplaceCharConcat(a3 + b3, a3, b3, '\'', "&#x27;");
    var a4, b4 := ReplaceChar(a3, '\'', "&#x27;"), ReplaceChar(b3, '\'', "&#x27;");
    ReplaceCharConcat(a4 + b4, a4, b4, '/', "&#x2F;");
  }

  /** The replacements performed one after the other escape each character exactly once. */
  lemma {:induction false} ReplacementsEscapeEachCharacter(s: string)
    ensures Replacements(s) == EscapeAll(s)
  {
    if s != [] {
      ReplacementsEscapeEachCharacter(s[1..]);
      ReplacementsOfChar(s[0]);
      assert s == [s[0]] + s[1..];
      ReplacementsConcat([s[0]], s[1..]);
    }
  }

  lemma {:induction false} NoMarkupAfterEscape(s: string)
    ensures forall d :: d in EscapeAll(s) ==> !IsMarkupChar(d)
  {
    if s != [] {
      NoMarkupAfterEscape(s[1..]);
    }
  }

  /** `sanitizeText` is entity escaping followed by `trim`, and its output holds none of `< > " ' /`. */
  lemma SanitizeTextEscapes(text: string)
    ensures SanitizeText(text) == Trim(EscapeAll(text))
    ensures forall d :: d in SanitizeText(text) ==> !IsMarkupChar(d)
  {
    ReplacementsEscapeEachCharacter(text);
    NoMarkupAfterEscape(text);
    TrimChars(EscapeAll(text));
  }

  // ---------------------------------------------------------------------------
  // isValidEmailDomain

  /** The temporary-mail domains that are refused. */
  const DisposableDomains: seq<string> := ["10minutemail.com", "tempmail.org", "guerrillamail.com", "mailinator.com"]

  /** `isValidEmailDomain`: `email.split("@")[1]` must be non-empty and, lower-cased, not a disposable domain. */
  predicate IsValidEmailDomain(email: string) {
    var parts := Split(email, '@');
    |parts| >= 2 && parts[1] != "" && Lower(parts[1]) !in DisposableDomains
  }

  lemma {:induction false} IndexOfCharIs(s: string, c: char, i: nat)
    requires i < |s| && s[i] == c
    requires forall j :: 0 <= j < i ==> s[j] != c
    ensures IndexOfChar(s, c) == Some(i)
  {
    if i > 0 {
      IndexOfCharIs(s[1..], c, i - 1);
    }
  }

  /** The domain examined is the text between the first `@` and the next `@` (or the end). */
  lemma EmailDomainIsAfterFirstAt(local: string, rest: string)
    requires '@' !in local
    ensures Split(local + "@" + rest, '@')[0] == local
    ensures |Split(local + "@" + rest, '@')| >= 2
    ensures Split(local + "@" + rest, '@')[1] == Split(rest, '@')[0]
  {
    var email := local + "@" + rest;
    IndexOfCharIs(email, '@', |local|);
    assert email[..|local|] == local && email[|local| + 1..] == rest;
  }

  /** Without an `@` there is no domain, and the address is refused. */
  lemma NoAtRefused(email: string)
    requires '@' !in email
    ensures !IsValidEmailDomain(email)
  {
  }

  /** An empty domain (nothing, or another `@`, right after the first `@`) is refused. */
  lemma EmptyDomainRefused(local: string, rest: string)
    requires '@' !in local
    requires rest == [] || rest[0] == '@'
    ensures !IsValidEmailDomain(local + "@" + rest)
  {
    EmailDomainIsAfterFirstAt(local, rest);
    if rest != [] {
      IndexOfCharIs(rest, '@', 0);
    }
  }

  /** A disposable domain is refused whatever its letter case. */
  lemma DisposableDomainRefused(local: string, domain: string)
    requires '@' !in local && '@' !in domain
    requires Lower(domain) in DisposableDomains
    ensures !IsValidEmailDomain(local + "@" + domain)
  {
    EmailDomainIsAfterFirstAt(local, domain);
  }

  /** Any other non-empty domain is accepted; only the part up to a second `@` is examined. */
  lemma OtherDomainAccepted(local: string, domain: string, rest: string)
    requires '@' !in local && '@' !in domain && domain != []
    requires Lower(domain) !in DisposableDomains
    requires rest == [] || rest[0] == '@'
    ensures IsValidEmailDomain(local + "@" + domain + rest)
  {
    assert local + "@" + domain + rest == local + "@" + (domain + rest);
    EmailDomainIsAfterFirstAt(local, domain + rest);
    if rest != [] {
      IndexOfCharIs(domain + rest, '@', |domain|);
      assert (domain + rest)[..|domain|] == domain;
    } else {
      assert domain + rest == domain;
    }
    assert Split(domain + rest, '@')[0] == domain;
  }

  /** Example: any address at `TempMail.org` is refused, although it is well formed: the domain is lower-cased first. */
  lemma TempmailRefused(local: string)
    requires '@' !in local
    ensures !IsValidEmailDomain(local + "@" + "TempMail.org")
  {
    assert Lower("TempMail.org") == "tempmail.org";
    DisposableDomainRefused(local, "TempMail.org");
  }

  // ---------------------------------------------------------------------------
  // containsSuspiciousContent

  /** A word boundary `\b` at position `i`. */
  predicate Boundary(s: string, i: int) {
    (0 < i <= |s| && IsWordChar(s[i - 1])) != (0 <= i < |s| && IsWordChar(s[i]))
  }

  /**
   * `/<tag\b[^<]*(?:(?!<\/tag>)<[^<]*)*<\/tag>/i` matches at `i`: the opening
   * `<tag` followed by a boundary, and a closing `</tag>` somewhere at or after
   * `j`. The middle part accepts anything that does not contain `</tag>`, so
   * the first closing tag after the opening one completes the match.
   */
  predicate ElementAt(s: string, open: string, close: string, i: int, j: int) {
    OccursAtIgnoreCase(s, i, open) && Boundary(s, i + |open|) && i + |open| <= j && OccursAtIgnoreCase(s, j, close)
  }

  predicate HasElement(s: string, open: string, close: string) {
    exists i, j :: 0 <= i <= j <= |s| && ElementAt(s, open, close, i, j)
  }

  /** `/on\w+\s*=/i` matches at `i`: "on", word characters up to `k`, whitespace up to `e`, then `=`. */
  predicate EventHandlerAt(s: string, i: int, k: int, e: int) {
    OccursAtIgnoreCase(s, i, "on") && i + 2 < k <= e < |s|
    && (forall t :: i + 2 <= t < k ==> IsWordChar(s[t]))
    && (forall t :: k <= t < e ==> IsWhitespace(s[t]))
    && s[e] == '='
  }

  predicate HasEventHandler(s: string) {
    exists i, k, e :: 0 <= i <= k <= e < |s| && EventHandlerAt(s, i, k, e)
  }

  /** `containsSuspiciousContent`: one of the five patterns matches somewhere. */
  predicate ContainsSuspiciousContent(text: string) {
    HasElement(text, "<script", "</script>")
    || ContainsIgnoreCase(text, "javascript:")
    || ContainsIgnoreCase(text, "data:text/html")
    || HasEventHandler(text)
    || HasElement(text, "<iframe", "</iframe>")
  }

  /** An element pattern, which opens with `<`, cannot match text without a `<`. */
  lemma NoElementWithoutOpeningBracket(s: string, open: string, close: string)
    requires '<' !in s && open != [] && open[0] == '<'
    ensures !HasElement(s, open, close)
  {
    assert forall i :: 0 <= i && i + |open| <= |s| ==> Lower(s[i..i + |open|])[0] == LowerChar(s[i]);
  }

  /** Sanitised text never holds a script or an iframe element, whatever the input. */
  lemma SanitizedHasNoElement(text: string)
    ensures !HasElement(SanitizeText(text), "<script", "</script>")
    ensures !HasElement(SanitizeText(text), "<iframe", "</iframe>")
  {
    SanitizeTextEscapes(text);
    NoElementWithoutOpeningBracket(SanitizeText(text), "<script", "</script>");
    NoElementWithoutOpeningBracket(SanitizeText(text), "<iframe", "</iframe>");
  }

  /** Example: an inline handler such as `onclick=` is suspicious, in any letter case. */
  lemma InlineHandlerSuspicious()
    ensures ContainsSuspiciousContent("<b OnClick = x>")
  {
    var s := "<b OnClick = x>";
    assert Lower(s[3..5]) == "on";
    assert EventHandlerAt(s, 3, 10, 11);
  }

  /** Example: a script element is suspicious. */
  lemma ScriptElementSuspicious()
    ensures ContainsSuspiciousContent("<script>x</script>")
  {
    var s := "<script>x</script>";
    assert Lower(s[0..7]) == "<script";
    assert Lower(s[9..18]) == "</script>";
    assert ElementAt(s, "<script", "</script>", 0, 9);
  }

  // ---------------------------------------------------------------------------
  // isSpamLike

  const SpamKeywords: seq<string> := ["viagra", "cialis", "casino", "lottery", "winner", "congratulations"]

  /** `/\b(viagra|...)\b/i` matches keyword `k` at `i`. */
  predicate KeywordAt(s: string, i: int, k: int) {
    0 <= k < |SpamKeywords| && OccursAtIgnoreCase(s, i, SpamKeywords[k])
    && Boundary(s, i) && Boundary(s, i + |SpamKeywords[k]|)
  }

  predicate HasSpamKeyword(s: string) {
    exists i, k :: 0 <= i <= |s| && 0 <= k < |SpamKeywords| && KeywordAt(s, i, k)
  }

  /** `/https?:\/\/[^\s]+/` matches at `p`. */
  predicate UrlAt(s: string, p: int) {
    (OccursAt(s, p, "http://") && p + 7 < |s| && !IsWhitespace(s[p + 7]))
    || (OccursAt(s, p, "https://") && p + 8 < |s| && !IsWhitespace(s[p + 8]))
  }

  predicate HasUrl(s: string) {
    exists p :: 0 <= p < |s| && UrlAt(s, p)
  }

  /** The first whitespace position at or after `p` (or the end): where a greedy `[^\s]+` stops. */
  function RunEnd(s: string, p: nat): (e: nat)
    requires p <= |s|
    ensures p <= e <= |s| && (e < |s| ==> IsWhitespace(s[e]))
    ensures forall t :: p <= t < e ==> !IsWhitespace(s[t])
    decreases |s| - p
  {
    if p == |s| || IsWhitespace(s[p]) then p else RunEnd(s, p + 1)
  }

  /** The number of matches `text.match(/https?:\/\/[^\s]+/g)` returns, scanning from `p`. */
  function UrlCountFrom(s: string, p: nat): nat
    requires p <= |s|
    decreases |s| - p
  {
    if p == |s| then 0
    else if UrlAt(s, p) then
      var e := RunEnd(s, p);
      assert e > p by { assert !IsWhitespace(s[p]); }
      1 + UrlCountFrom(s, e)
    else UrlCountFrom(s, p + 1)
  }

  function UrlCount(s: string): nat {
    UrlCountFrom(s, 0)
  }

  /** Some match was counted exactly when a URL starts somewhere after `p`. */
  lemma {:induction false} UrlCountPositive(s: string, p: nat)
    requires p <= |s|
    ensures UrlCountFrom(s, p) > 0 <==> exists q :: p <= q < |s| && UrlAt(s, q)
    decreases |s| - p
  {
    if p < |s| && !UrlAt(s, p) {
      UrlCountPositive(s, p + 1);
      if exists q :: p <= q < |s| && UrlAt(s, q) {
        var q :| p <= q < |s| && UrlAt(s, q);
        assert q != p;
      }
    }
  }

  /** `/(.)\1{4,}/`: five equal characters in a row, the first not a line terminator. */
  predicate RepeatAt(s: string, i: int) {
    0 <= i && i + 5 <= |s| && !IsLineTerminator(s[i])
    && s[i + 1] == s[i] && s[i + 2] == s[i] && s[i + 3] == s[i] && s[i + 4] == s[i]
  }

  predicate HasRepeat(s: string) {
    exists i :: 0 <= i < |s| && RepeatAt(s, i)
  }

  /** `/[A-Z]{10,}/`: ten capital ASCII letters in a row. */
  predicate CapsAt(s: string, i: int) {
    0 <= i && i + 10 <= |s| && forall t :: i <= t < i + 10 ==> IsAsciiUpper(s[t])
  }

  predicate HasCapsRun(s: string) {
    exists i :: 0 <= i < |s| && CapsAt(s, i)
  }

  /** `isSpamLike`: more than two URLs, or any of the four indicator patterns matches. */
  predicate IsSpamLike(text: string) {
    UrlCount(text) > 2
    || HasSpamKeyword(text) || UrlCount(text) > 0 || HasRepeat(text) || HasCapsRun(text)
  }

  /**
   * The URL-count test never decides anything: the indicator list holds the URL
   * pattern itself, so one URL already makes a message spam.
   */
  lemma SpamIsAnyIndicator(text: string)
    ensures IsSpamLike(text) <==> HasSpamKeyword(text) || HasUrl(text) || HasRepeat(text) || HasCapsRun(text)
  {
    UrlCountPositive(text, 0);
  }

  /** Example: ten repeated letters are spam although the message is long enough. */
  lemma RepeatedLettersAreSpam()
    ensures IsSpamLike("aaaaaaaaaa")
  {
    assert RepeatAt("aaaaaaaaaa", 0);
  }

  // ---------------------------------------------------------------------------
  // ContactFormSchema

  /** The request body as parsed JSON (`Unreadable`: an object whose property reads throw). */
  datatype Input =
    | Undefined | Null | Boolean(b: bool) | Number(n: int) | Text(s: string) | Array
    | Object(name: Input, email: Input, message: Input)
    | Unreadable

  /** The type name a schema issue reports for a value of the wrong type. */
  function TypeName(v: Input): string {
    match v
    case Undefined => "undefined"
    case Null => "null"
    case Boolean(_) => "boolean"
    case Number(_) => "number"
    case Text(_) => "string"
    case Array => "array"
    case Object(_, _, _) => "object"
    case Unreadable => "object"
  }

  datatype ContactForm = ContactForm(name: string, email: string, message: string)

  /** The schema either parses, or throws a schema error with its issue messages, or throws something else. */
  datatype SchemaOutcome = Parsed(form: ContactForm) | SchemaIssues(messages: seq<string>) | OtherError

  /** The characters of `s` that are not whitespace, in order. */
  function NonWhitespace(s: string): string {
    if s == [] then [] else (if IsWhitespace(s[0]) then [] else [s[0]]) + NonWhitespace(s[1..])
  }

  lemma NonWhitespaceSkipsLeading(s: string)
    ensures NonWhitespace(TrimStart(s)) == NonWhitespace(s)
  {
    if s != [] && IsWhitespace(s[0]) {
      NonWhitespaceSkipsLeading(s[1..]);
    }
  }

  /**
   * `.replace(/\s+/g, " ")`: every run of whitespace becomes one space. The
   * result holds no whitespace but single spaces, begins with whitespace iff
   * the input does, and keeps the other characters in order.
   */
  function CollapseWhitespace(s: string): (r: string)
    ensures |r| <= |s|
    ensures s != [] ==> r != [] && (IsWhitespace(r[0]) <==> IsWhitespace(s[0]))
    ensures forall i :: 0 <= i < |r| && IsWhitespace(r[i]) ==> r[i] == ' '
    ensures forall i :: 0 <= i < |r| - 1 ==> !IsWhitespace(r[i]) || !IsWhitespace(r[i + 1])
    ensures NonWhitespace(r) == NonWhitespace(s)
    decreases |s|
  {
    if s == [] then []
    else if IsWhitespace(s[0]) then
      var rest := CollapseWhitespace(TrimStart(s));
      NonWhitespaceSkipsLeading(s);
      assert (" " + rest)[1..] == rest;
      " " + rest
    else
      var rest := CollapseWhitespace(s[1..]);
      assert ([s[0]] + rest)[1..] == rest;
      [s[0]] + rest
  }

  /** Every whitespace character replaced by a space. */
  function Spaces(s: string): (r: string)
    ensures |r| == |s|
  {
    seq(|s|, i requires 0 <= i < |s| => if IsWhitespace(s[i]) then ' ' else s[i])
  }

  /** Each space that follows a space dropped. */
  function Squeeze(t: string): string {
    if |t| < 2 then t
    else if t[0] == ' ' && t[1] == ' ' then Squeeze(t[1..])
    else [t[0]] + Squeeze(t[1..])
  }

  /** Collapsing is the same as turning whitespace into spaces and then squeezing repeated spaces. */
  lemma {:induction false} CollapseIsSqueezedSpaces(s: string)
    ensures CollapseWhitespace(s) == Squeeze(Spaces(s))
    decreases |s|
  {
    if s != [] {
      assert Spaces(s)[1..] == Spaces(s[1..]);
      if IsWhitespace(s[0]) {
        SqueezeLeadingRun(s);
        CollapseIsSqueezedSpaces(TrimStart(s));
      } else {
        CollapseIsSqueezedSpaces(s[1..]);
      }
    }
  }

  /** A leading run of whitespace squeezes to one space before the rest. */
  lemma {:induction false} SqueezeLeadingRun(s: string)
    requires s != [] && IsWhitespace(s[0])
    ensures Squeeze(Spaces(s)) == " " + Squeeze(Spaces(TrimStart(s)))
    decreases |s|
  {
    assert Spaces(s)[1..] == Spaces(s[1..]);
    if |s| >= 2 && IsWhitespace(s[1]) {
      SqueezeLeadingRun(s[1..]);
    } else if |s| >= 2 {
      assert Spaces(s[1..])[0] == s[1];
    }
  }

  /** The checks on `name`, in order: min(1) and max(100) on the raw value, the refinement on the trimmed one. */
  function NameIssues(s: string): seq<string> {
    (if |s| < 1 then ["Name is required"] else [])
    + (if |s| > 100 then ["Name must be less than 100 characters"] else [])
    + (if |Trim(s)| == 0 then ["Name cannot be empty or contain only whitespace"] else [])
  }

  /** The checks on `email`, in order: the address syntax, min(1), max(254). */
  function EmailIssues(s: string, isEmail: string -> bool): seq<string> {
    (if !isEmail(s) then ["Please enter a valid email address"] else [])
    + (if |s| < 1 then ["Email is required"] else [])
    + (if |s| > 254 then ["Email must be less than 254 characters"] else [])
  }

  /** The checks on `message`: min(10) and max(1000) on the raw value, the refinement on the trimmed one. */
  function MessageIssues(s: string): seq<string> {
    (if |s| < 10 then ["Message must be at least 10 characters long"] else [])
    + (if |s| > 1000 then ["Message must be less than 1000 characters"] else [])
    + (if |CollapseWhitespace(Trim(s))| < 10 then ["Message must contain meaningful content"] else [])
  }

  function StringTypeMessage(v: Input): string {
    "Invalid input: expected string, received " + TypeName(v)
  }

  /** `ContactFormSchema.parse(data)`; `isEmail` is the schema library's address syntax check. */
  function ParseSchema(data: Input, isEmail: string -> bool): SchemaOutcome {
    match data
    case Unreadable => OtherError
    case Object(n, e, m) =>
      var issues :=
        (if n.Text? then NameIssues(n.s) else [StringTypeMessage(n)])
        + (if e.Text? then EmailIssues(e.s, isEmail) else ["Please enter a valid email address"])
        + (if m.Text? then MessageIssues(m.s) else [StringTypeMessage(m)]);
      if issues == [] then Parsed(ContactForm(Trim(n.s), Trim(Lower(e.s)), Trim(m.s)))
      else SchemaIssues(issues)
    case _ => SchemaIssues(["Invalid input: expected object, received " + TypeName(data)])
  }

  /** A parsed form has a non-empty trimmed name of at most 100 characters and a message of 10 to 1000. */
  lemma ParsedFormShape(data: Input, isEmail: string -> bool)
    requires ParseSchema(data, isEmail).Parsed?
    ensures var f := ParseSchema(data, isEmail).form;
      0 < |f.name| <= 100 && |f.message| <= 1000 && |CollapseWhitespace(f.message)| >= 10
      && |f.email| <= 254 && isEmail(data.email.s)
  {
    var n, m := data.name.s, data.message.s;
    assert NameIssues(n) == [] && MessageIssues(m) == [];
    TrimIdempotent(m);
  }

  lemma TrimIdempotent(s: string)
    ensures Trim(Trim(s)) == Trim(s)
  {
    var t := Trim(s);
    assert TrimStart(t) == t;
    assert TrimEnd(t) == t;
  }

  // ---------------------------------------------------------------------------
  // validateContactForm

  datatype ValidationResult = Success(data: ContactForm) | Failure(errors: seq<string>)

  /** The errors of the four content checks, given their outcomes, in the fixed order. */
  function ErrorsOf(nameSuspicious: bool, messageSuspicious: bool, domainRefused: bool, spam: bool): seq<string> {
    (if nameSuspicious then ["Name contains suspicious content"] else [])
    + (if messageSuspicious then ["Message contains suspicious content"] else [])
    + (if domainRefused then ["Email domain is not allowed"] else [])
    + (if spam then ["Message appears to be spam"] else [])
  }

  /** The content checks run after the schema, in their fixed order. */
  function ContentErrors(f: ContactForm): seq<string> {
    ErrorsOf(ContainsSuspiciousContent(f.name), ContainsSuspiciousContent(f.message),
             !IsValidEmailDomain(f.email), IsSpamLike(f.message))
  }

  /** Accepted input: name and message escaped, e-mail as parsed. */
  function Sanitized(f: ContactForm): ContactForm {
    ContactForm(SanitizeText(f.name), f.email, SanitizeText(f.message))
  }

  /** What `validateContactForm` returns. */
  function Validate(data: Input, isEmail: string -> bool): ValidationResult {
    match ParseSchema(data, isEmail)
    case OtherError => Failure(["Invalid input data"])
    case SchemaIssues(ms) => Failure(ms)
    case Parsed(f) => if ContentErrors(f) == [] then Success(Sanitized(f)) else Failure(ContentErrors(f))
  }

  /** `validateContactForm`: parse, then run the content checks and escape the accepted text. */
  method ValidateContactForm(data: Input, isEmail: string -> bool) returns (r: ValidationResult)
    ensures r == Validate(data, isEmail)
  {
    var outcome := ParseSchema(data, isEmail);
    if outcome.OtherError? {
      return Failure(["Invalid input data"]);
    }
    if outcome.SchemaIssues? {
      return Failure(outcome.messages);
    }
    var parsed := outcome.form;
    var errors := CollectContentErrors(parsed);
    if |errors| > 0 {
      return Failure(errors);
    }
    return Success(ContactForm(SanitizeText(parsed.name), parsed.email, SanitizeText(parsed.message)));
  }

  /** The `errors.push` sequence of `validateContactForm`. */
  method CollectContentErrors(parsed: ContactForm) returns (errors: seq<string>)
    ensures errors == ContentErrors(parsed)
  {
    var nameSuspicious := ContainsSuspiciousContent(parsed.name);
    var messageSuspicious := ContainsSuspiciousContent(parsed.message);
    var domainRefused := !IsValidEmailDomain(parsed.email);
    var spam := IsSpamLike(parsed.message);
    errors := [];
    if nameSuspicious {
      errors := errors + ["Name contains suspicious content"];
    }
    if messageSuspicious {
      errors := errors + ["Message contains suspicious content"];
    }
    assert errors == ErrorsOf(nameSuspicious, messageSuspicious, false, false);
    if domainRefused {
      errors := errors + ["Email domain is not allowed"];
    }
    if spam {
      errors := errors + ["Message appears to be spam"];
    }
  }

  /** A schema failure short-circuits: only its issues are reported and no content check is run. */
  lemma SchemaFailureShortCircuits(data: Input, isEmail: string -> bool)
    requires !ParseSchema(data, isEmail).Parsed?
    ensures Validate(data, isEmail).Failure?
    ensures ParseSchema(data, isEmail).SchemaIssues? ==>
      Validate(data, isEmail).errors == ParseSchema(data, isEmail).messages && |Validate(data, isEmail).errors| > 0
    ensures ParseSchema(data, isEmail).OtherError? ==> Validate(data, isEmail).errors == ["Invalid input data"]
  {
  }

  /** After the schema, the result is a success exactly when all four content checks pass. */
  lemma SuccessIffChecksPass(data: Input, isEmail: string -> bool)
    requires ParseSchema(data, isEmail).Parsed?
    ensures var f := ParseSchema(data, isEmail).form;
      Validate(data, isEmail).Success? <==>
        !ContainsSuspiciousContent(f.name) && !ContainsSuspiciousContent(f.message)
        && IsValidEmailDomain(f.email) && !IsSpamLike(f.message)
  {
  }

  /** The position of each content error in the fixed order. */
  function Rank(e: string): int {
    if e == "Name contains suspicious content" then 0
    else if e == "Message contains suspicious content" then 1
    else if e == "Email domain is not allowed" then 2
    else 3
  }

  /** Each of the four messages appears exactly when its flag is set. */
  lemma ErrorsOfMembers(a: bool, b: bool, c: bool, d: bool)
    ensures ("Name contains suspicious content" in ErrorsOf(a, b, c, d)) <==> a
    ensures ("Message contains suspicious content" in ErrorsOf(a, b, c, d)) <==> b
    ensures ("Email domain is not allowed" in ErrorsOf(a, b, c, d)) <==> c
    ensures ("Message appears to be spam" in ErrorsOf(a, b, c, d)) <==> d
  {
  }

  /** The messages appear in rank order. */
  lemma ErrorsOfRanked(a: bool, b: bool, c: bool, d: bool)
    ensures forall i, j :: 0 <= i < j < |ErrorsOf(a, b, c, d)| ==> Rank(ErrorsOf(a, b, c, d)[i]) < Rank(ErrorsOf(a, b, c, d)[j])
  {
  }

  /** Each error is reported exactly when its check fails, in the fixed order, at most once. */
  lemma ContentErrorsOrdered(f: ContactForm)
    ensures ("Name contains suspicious content" in ContentErrors(f)) <==> ContainsSuspiciousContent(f.name)
    ensures ("Message contains suspicious content" in ContentErrors(f)) <==> ContainsSuspiciousContent(f.message)
    ensures ("Email domain is not allowed" in ContentErrors(f)) <==> !IsValidEmailDomain(f.email)
    ensures ("Message appears to be spam" in ContentErrors(f)) <==> IsSpamLike(f.message)
    ensures forall i, j :: 0 <= i < j < |ContentErrors(f)| ==> Rank(ContentErrors(f)[i]) < Rank(ContentErrors(f)[j])
  {
    ErrorsOfMembers(ContainsSuspiciousContent(f.name), ContainsSuspiciousContent(f.message),
                    !IsValidEmailDomain(f.email), IsSpamLike(f.message));
    ErrorsOfRanked(ContainsSuspiciousContent(f.name), ContainsSuspiciousContent(f.message),
                   !IsValidEmailDomain(f.email), IsSpamLike(f.message));
  }

  /** Accepted data: the e-mail is the parsed one, unescaped; name and message carry no markup characters. */
  lemma AcceptedDataIsSanitized(data: Input, isEmail: string -> bool)
    requires Validate(data, isEmail).Success?
    ensures var d := Validate(data, isEmail).data;
      d.email == ParseSchema(data, isEmail).form.email
      && (forall c :: c in d.name ==> !IsMarkupChar(c))
      && (forall c :: c in d.message ==> !IsMarkupChar(c))
  {
    var f := ParseSchema(data, isEmail).form;
    SanitizeTextEscapes(f.name);
    SanitizeTextEscapes(f.message);
  }
}
