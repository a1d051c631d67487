/**
 What the journal keeps of a batch of calls: the redacted text of their JSON, read back (src/agent.rs:481-487,
 src/secrets.rs).
 */
module Redaction {
  import opened Wrappers
  import opened Text
  import opened Chat
  import opened ToolPairs
  import opened Hex

  // ---------------------------------------------------------------- the calls as JSON

  /** One character inside a JSON string, as the serialiser writes it. */
  function EscapedChar(c: char): string {
    if c == '"' then "\\\""
    else if c == '\\' then "\\\\"
    else if c == '\U{0008}' then "\\b"
    else if c == '\t' then "\\t"
    else if c == '\n' then "\\n"
    else if c == '\U{000C}' then "\\f"
    else if c == '\r' then "\\r"
    else if c < ' ' then "\\u" + HexPadded(c as nat, 4)
    else [c]
  }

  function Escaped(s: string): string {
    if s == "" then "" else EscapedChar(s[0]) + Escaped(s[1..])
  }

  const ID_KEY := "{\"id\""
  const NAME_KEY := "\",\"name\":\""
  const ARGUMENTS_KEY := "\",\"arguments\":"

  /** What stands between the id of a call and its arguments. */
  function NamePart(call: ToolCall): string { NAME_KEY + (Escaped(call.name) + ARGUMENTS_KEY) }

  /** One call; its arguments are JSON already. */
  function CallText(call: ToolCall): string {
    ID_KEY + (":\"" + (Escaped(call.id) + (NamePart(call) + (call.arguments + "}"))))
  }

  function TailText(calls: seq<ToolCall>): string {
    if calls == [] then "]" else "," + (CallText(calls[0]) + TailText(calls[1..]))
  }

  function ListText(calls: seq<ToolCall>): string {
    if calls == [] then "[]" else "[" + (CallText(calls[0]) + TailText(calls[1..]))
  }

  // ---------------------------------------------------------------- the redactor

  type Rule = string -> string

  /** The rules in order, each on what the one before left. */
  function Redact(rules: seq<Rule>, text: string): string {
    if rules == [] then text else Redact(rules[1..], rules[0](text))
  }

  /** `read` gives the calls a text holds, or nothing when it is no list of calls any more. */
  datatype Redactor = Redactor(rules: seq<Rule>, read: string -> Option<seq<ToolCall>>)

  /** What the journal holds of a batch; nothing stands for the `null` of an unreadable text. */
  function LoggedCalls(r: Redactor, calls: seq<ToolCall>): Option<seq<ToolCall>> {
    r.read(Redact(r.rules, ListText(calls)))
  }

  function IdsOf(logged: Option<seq<ToolCall>>): seq<CallId> {
    if logged.None? then [] else CallIds(logged.value)
  }

  /** The record of the batch names the ids of its calls, in order. */
  predicate KeepsIds(r: Redactor, calls: seq<ToolCall>) {
    IdsOf(LoggedCalls(r, calls)) == CallIds(calls)
  }

  /** Reading undoes writing. */
  predicate ReadsBack(r: Redactor, calls: seq<ToolCall>) {
    r.read(ListText(calls)) == Some(calls)
  }

  /** None of the rules finds anything. */
  ghost predicate Untouched(rules: seq<Rule>, text: string) {
    forall k | 0 <= k < |rules| :: rules[k](text) == text
  }

  lemma {:induction false} UntouchedStays(rules: seq<Rule>, text: string)
    requires Untouched(rules, text)
    ensures Redact(rules, text) == text
  {
    if rules != [] {
      assert rules[0](text) == text && forall k | 0 <= k < |rules[1..]| :: rules[1..][k] == rules[k + 1];
      UntouchedStays(rules[1..], text);
    }
  }

  /** A batch without anything that looks like a secret is logged as it is. */
  lemma CleanBatchKeepsIds(r: Redactor, calls: seq<ToolCall>)
    requires Untouched(r.rules, ListText(calls)) && ReadsBack(r, calls)
    ensures KeepsIds(r, calls)
  {
    UntouchedStays(r.rules, ListText(calls));
  }

  lemma {:induction false} RedactConcat(a: seq<Rule>, b: seq<Rule>, text: string)
    ensures Redact(a + b, text) == Redact(b, Redact(a, text))
  {
    if a == [] {
      assert a + b == b;
    } else {
      assert (a + b)[1..] == a[1..] + b;
      RedactConcat(a[1..], b, a[0](text));
    }
  }

  /** One rule alone finds something. */
  lemma {:induction false} OneRuleActs(before: seq<Rule>, rule: Rule, after: seq<Rule>, text: string)
    requires Untouched(before, text) && Untouched(after, rule(text))
    ensures Redact(before + ([rule] + after), text) == rule(text)
  {
    UntouchedStays(before, text);
    RedactConcat(before, [rule] + after, text);
    assert ([rule] + after)[0] == rule && ([rule] + after)[1..] == after;
    UntouchedStays(after, rule(text));
  }

  // ---------------------------------------------------------------- runs of characters

  /** How many characters at the front satisfy a condition. */
  function Span(t: string, ok: char -> bool): (n: nat)
    ensures n <= |t|
    ensures forall i | 0 <= i < n :: ok(t[i])
    ensures n < |t| ==> !ok(t[n])
  {
    if t == "" || !ok(t[0]) then 0 else 1 + Span(t[1..], ok)
  }

  lemma {:induction false} SpanIs(a: string, b: string, ok: char -> bool)
    requires (forall i | 0 <= i < |a| :: ok(a[i])) && (b == "" || !ok(b[0]))
    ensures Span(a + b, ok) == |a|
  {
    if a == "" {
      assert a + b == b;
    } else {
      assert (a + b)[1..] == a[1..] + b;
      SpanIs(a[1..], b, ok);
    }
  }

  // ---------------------------------------------------------------- long hexadecimal tokens

  const HEX_TOKEN_MIN := 32
  const HEX_TOKEN_KEEP := 8
  const MASK := "***"

  /** The word characters beyond ASCII, as the Unicode tables have them. */
  const WORDS_BEYOND_ASCII: set<char>

  predicate IsHex(c: char) { '0' <= c <= '9' || 'a' <= c <= 'f' || 'A' <= c <= 'F' }

  predicate InWord(c: char) {
    || '0' <= c <= '9' || 'a' <= c <= 'z' || 'A' <= c <= 'Z' || c == '_'
    || (c > '\U{007F}' && c in WORDS_BEYOND_ASCII)
  }

  predicate AllHex(s: string) { forall c | c in s :: IsHex(c) }

  /** A whole word of 32 or more hexadecimal digits keeps the first eight (rule `hex-token`, src/secrets.rs:113). */
  function RedactWord(w: string): string {
    if AllHex(w) && |w| >= HEX_TOKEN_MIN then w[..HEX_TOKEN_KEEP] + MASK else w
  }

  /** The length of the first word, or of one character between words. */
  function Piece(t: string): (k: nat)
    requires t != ""
    ensures 1 <= k <= |t|
  {
    var n := Span(t, InWord);
    if n == 0 then 1 else n
  }

  /** Word after word; what stands between the words stays. */
  function RedactHex(t: string): string
    decreases |t|
  {
    if t == "" then "" else RedactWord(t[..Piece(t)]) + RedactHex(t[Piece(t)..])
  }

  /** No word goes across. */
  predicate Parted(a: string, b: string) {
    a == "" || b == "" || !InWord(a[|a| - 1]) || !InWord(b[0])
  }

  lemma PieceParted(a: string, b: string)
    requires a != "" && Parted(a, b)
    ensures Piece(a + b) == Piece(a)
  {
    hide InWord;
    var n := Span(a, InWord);
    assert a == a[..n] + a[n..] && a + b == a[..n] + (a[n..] + b);
    SpanIs(a[..n], a[n..] + b, InWord);
  }

  lemma Combine(w: string, a: string, b: string, whole: string, front: string)
    requires whole == w + (a + b) && front == w + a
    ensures whole == front + b
  {
  }

  lemma {:induction false} HexUnfolds(t: string, k: nat)
    requires t != "" && k == Piece(t)
    ensures RedactHex(t) == RedactWord(t[..k]) + RedactHex(t[k..])
  {
  }

  lemma PartedTail(a: string, b: string, k: nat)
    requires Parted(a, b) && k <= |a|
    ensures Parted(a[k..], b)
    ensures (a + b)[k..] == a[k..] + b && (a + b)[..k] == a[..k]
  {
  }

  lemma {:induction false} HexStep(a: string, b: string, k: nat)
    requires a != "" && Parted(a, b) && k == Piece(a)
    requires RedactHex(a[k..] + b) == RedactHex(a[k..]) + RedactHex(b)
    ensures RedactHex(a + b) == RedactHex(a) + RedactHex(b)
  {
    hide RedactHex, RedactWord, Piece, InWord;
    PieceParted(a, b);
    PartedTail(a, b, k);
    hide Parted;
    HexUnfolds(a, k);
    HexUnfolds(a + b, k);
    Combine(RedactWord(a[..k]), RedactHex(a[k..]), RedactHex(b), RedactHex(a + b), RedactHex(a));
  }

  lemma {:induction false} HexConcat(a: string, b: string)
    requires Parted(a, b)
    ensures RedactHex(a + b) == RedactHex(a) + RedactHex(b)
    decreases |a|
  {
    hide RedactWord, Piece, InWord, Parted;
    if a == "" {
      assert a + b == b;
    } else {
      hide RedactHex;
      PartedTail(a, b, Piece(a));
      HexConcat(a[Piece(a)..], b);
      HexStep(a, b, Piece(a));
    }
  }

  lemma {:induction false} HexWord(x: string)
    requires AllHex(x) && |x| >= HEX_TOKEN_MIN
    ensures RedactHex(x) == x[..HEX_TOKEN_KEEP] + MASK
  {
    assert x + "" == x && forall i | 0 <= i < |x| :: x[i] in x;
    SpanIs(x, "", InWord);
    assert x[..|x|] == x && x[|x|..] == "";
  }

  /** Before and behind a hexadecimal token, two texts that the rule leaves alone. */
  lemma {:induction false} HexInside(before: string, x: string, after: string)
    requires RedactHex(before) == before && RedactHex(after) == after
    requires AllHex(x) && |x| >= HEX_TOKEN_MIN && Parted(before, x) && Parted(x, after)
    ensures RedactHex(before + (x + after)) == before + (x[..HEX_TOKEN_KEEP] + MASK + after)
  {
    hide RedactHex, RedactWord, AllHex;
    assert (x + after)[0] == x[0];
    HexConcat(before, x + after);
    HexConcat(x, after);
    HexWord(x);
  }

  // ---------------------------------------------------------------- an id that looks like a token

  /** A character that JSON strings hold as it is. */
  predicate Plain(c: char) { c >= ' ' && c != '"' && c != '\\' }

  lemma {:induction false} PlainStays(s: string)
    requires forall c | c in s :: Plain(c)
    ensures Escaped(s) == s
  {
    if s != "" {
      assert s[0] in s && forall c | c in s[1..] :: c in s;
      PlainStays(s[1..]);
      PlainCharStays(s[0]);
      hide EscapedChar, Plain;
    }
  }

  lemma PlainCharStays(c: char)
    requires Plain(c)
    ensures EscapedChar(c) == [c]
  {
  }

  /** Everything before the first id of a list. */
  const LIST_HEAD := "[" + (ID_KEY + ":\"")

  /** Everything behind it. */
  function BehindId(calls: seq<ToolCall>): string
    requires calls != []
  {
    NamePart(calls[0]) + (calls[0].arguments + ("}" + TailText(calls[1..])))
  }

  lemma Regroup(a: string, b: string, c: string, d: string, e: string, f: string, g: string, h: string)
    ensures a + ((b + (c + (d + (e + (f + g))))) + h) == (a + (b + c)) + (d + (e + (f + (g + h))))
  {
  }

  lemma IdSplits(calls: seq<ToolCall>, id: string)
    requires calls != [] && calls[0].id == id && forall c | c in id :: Plain(c)
    ensures ListText(calls) == LIST_HEAD + (id + BehindId(calls))
  {
    PlainStays(id);
    hide NamePart, TailText, Escaped, Plain;
    var call := calls[0];
    Regroup("[", ID_KEY, ":\"", id, NamePart(call), call.arguments, "}", TailText(calls[1..]));
  }

  /** The first id with its hexadecimal word cut. */
  function CutId(calls: seq<ToolCall>, p: string, x: string): seq<ToolCall>
    requires calls != [] && |x| >= HEX_TOKEN_KEEP
  {
    [calls[0].(id := p + (x[..HEX_TOKEN_KEEP] + MASK))] + calls[1..]
  }

  lemma {:induction false} HexIdText(calls: seq<ToolCall>, p: string, x: string)
    requires calls != [] && calls[0].id == p + x && forall c | c in p :: Plain(c)
    requires AllHex(x) && |x| >= HEX_TOKEN_MIN && Parted(p, x)
    requires RedactHex(p) == p && RedactHex(BehindId(calls)) == BehindId(calls)
    ensures RedactHex(ListText(calls)) == ListText(CutId(calls, p, x))
  {
    var cut, short := CutId(calls, p, x), x[..HEX_TOKEN_KEEP] + MASK;
    hide RedactHex, RedactWord, ListText;
    HexIsPlain(x);
    IdSplits(calls, p + x);
    IdSplits(cut, p + short);
    assert cut[1..] == calls[1..] && BehindId(cut) == BehindId(calls);
    BehindIsParted(calls, x);
    HeadStays(p, x);
    hide BehindId, Parted;
    HexInside(LIST_HEAD + p, x, BehindId(calls));
    ConcatAssoc(LIST_HEAD, p, x, BehindId(calls));
    ConcatAssoc(LIST_HEAD, p, short, BehindId(calls));
  }

  lemma ConcatAssoc(a: string, b: string, c: string, d: string)
    ensures a + ((b + c) + d) == (a + b) + (c + d)
  {
  }

  lemma HexIsPlain(x: string)
    requires AllHex(x)
    ensures forall c | c in x :: Plain(c)
    ensures forall c | c in x[..if |x| < HEX_TOKEN_KEEP then |x| else HEX_TOKEN_KEEP] + MASK :: Plain(c)
  {
  }

  /** Words shorter than a token stay. */
  lemma {:induction false} ShortStays(t: string)
    requires |t| < HEX_TOKEN_MIN
    ensures RedactHex(t) == t
    decreases |t|
  {
    if t != "" {
      hide Piece;
      ShortStays(t[Piece(t)..]);
      assert t == t[..Piece(t)] + t[Piece(t)..];
    }
  }

  lemma {:induction false} HeadStays(p: string, x: string)
    requires RedactHex(p) == p && Parted(p, x)
    ensures RedactHex(LIST_HEAD + p) == LIST_HEAD + p && Parted(LIST_HEAD + p, x)
  {
    hide RedactHex;
    var head := LIST_HEAD;
    assert |head| == 8 && head[7] == '"';
    ShortStays(head);
    HexConcat(head, p);
    assert p != "" ==> (head + p)[|head + p| - 1] == p[|p| - 1];
  }

  lemma BehindIsParted(calls: seq<ToolCall>, x: string)
    requires calls != []
    ensures Parted(x, BehindId(calls))
  {
    assert NAME_KEY[0] == '"';
    assert BehindId(calls)[0] == '"';
  }

  /**
   An id that ends in a word of 32 or more hexadecimal digits, as some servers hand out, is cut in the record of its
   batch although nothing else there looks like a secret; the record of the result carries the whole id.
   */
  lemma {:induction false} HexIdIsLost(r: Redactor, before: seq<Rule>, after: seq<Rule>, calls: seq<ToolCall>,
                                     p: string, x: string)
    requires r.rules == before + ([RedactHex] + after)
    requires calls != [] && calls[0].id == p + x && forall c | c in p :: Plain(c)
    requires AllHex(x) && |x| >= HEX_TOKEN_MIN && Parted(p, x)
    requires RedactHex(p) == p && RedactHex(BehindId(calls)) == BehindId(calls)
    requires Untouched(before, ListText(calls)) && Untouched(after, ListText(CutId(calls, p, x)))
    requires ReadsBack(r, CutId(calls, p, x))
    ensures LoggedCalls(r, calls) == Some(CutId(calls, p, x)) && !KeepsIds(r, calls)
  {
    hide RedactHex, ListText, BehindId;
    HexIdText(calls, p, x);
    OneRuleActs(before, RedactHex, after, ListText(calls));
    assert |p + (x[..HEX_TOKEN_KEEP] + MASK)| < |p + x|;
    assert CallIds(CutId(calls, p, x))[0] != CallIds(calls)[0];
  }

  // ---------------------------------------------------------------- passwords in addresses

  const SCHEME_END := "://"
  const URL_USER_MAX := 64
  const URL_PASSWORD_MIN := 4

  predicate InUser(c: char) { c != '/' && c != ':' && c != '@' && !IsWhitespace(c) }

  predicate InPassword(c: char) { c != '/' && c != '@' && !IsWhitespace(c) }

  /** The length of `user:` at the front. */
  function UserPart(t: string): (n: Option<nat>)
    ensures n.Some? ==> 0 < n.value <= |t|
  {
    var u := Span(t, InUser);
    if 1 <= u <= URL_USER_MAX && u < |t| && t[u] == ':' then Some(u + 1) else None
  }

  /** The length of `password@` at the front. */
  function PasswordPart(t: string): (n: Option<nat>)
    ensures n.Some? ==> 0 < n.value <= |t|
  {
    var p := Span(t, InPassword);
    if URL_PASSWORD_MIN <= p < |t| && t[p] == '@' then Some(p + 1) else None
  }

  /** The length of a match of `://user:password@` at the front (rule `url-password`, src/secrets.rs:101). */
  function UrlMatch(t: string): (n: Option<nat>)
    ensures n.Some? ==> 0 < n.value <= |t|
  {
    if !(SCHEME_END <= t) || UserPart(t[3..]).None? then None
    else
      var u := 3 + UserPart(t[3..]).value;
      var p := PasswordPart(t[u..]);
      if p.None? then None else Some(u + p.value)
  }

  /** From left to right, each match leaves the scheme. */
  function RedactUrl(t: string): string
    decreases |t|
  {
    if t == "" then ""
    else
      var n := UrlMatch(t);
      if n.None? then [t[0]] + RedactUrl(t[1..]) else SCHEME_END + MASK + RedactUrl(t[n.value..])
  }

  lemma NoMatchWithoutSlash(s: string)
    requires |s| < 2 || s[1] != '/'
    ensures UrlMatch(s).None?
  {
    assert SCHEME_END[1] == '/';
  }

  /** Nothing matches in a text without a slash, nor across its end unless the next one begins with a slash. */
  lemma {:induction false} NoUrlIn(a: string, t: string)
    requires '/' !in a && (t == "" || t[0] != '/')
    ensures RedactUrl(a + t) == a + RedactUrl(t)
  {
    hide UrlMatch, RedactUrl;
    if a == "" {
      assert a + t == t;
    } else {
      var s := a + t;
      assert s[1..] == a[1..] + t && s[0] == a[0];
      assert |s| > 1 ==> s[1] == (if |a| > 1 then a[1] else t[0]);
      NoMatchWithoutSlash(s);
      CharStays(s);
      NoUrlIn(a[1..], t);
      FirstBack(a, RedactUrl(t));
    }
  }

  lemma {:induction false} CharStays(s: string)
    requires s != "" && UrlMatch(s).None?
    ensures RedactUrl(s) == [s[0]] + RedactUrl(s[1..])
  {
    hide UrlMatch;
  }

  lemma FirstBack(a: string, t: string)
    requires a != ""
    ensures [a[0]] + (a[1..] + t) == a + t
  {
  }

  lemma UserMatches(user: string, tail: string)
    requires 1 <= |user| <= URL_USER_MAX && forall c | c in user :: InUser(c)
    ensures UserPart(user + (":" + tail)) == Some(|user| + 1)
  {
    SpanIs(user, ":" + tail, InUser);
  }

  lemma PasswordMatches(password: string, rest: string)
    requires URL_PASSWORD_MIN <= |password| && forall c | c in password :: InPassword(c)
    ensures PasswordPart(password + ("@" + rest)) == Some(|password| + 1)
  {
    SpanIs(password, "@" + rest, InPassword);
  }

  lemma UrlMatchIs(t: string, a: string, b: string, u: nat, p: nat)
    requires 3 + u <= |t| && t[..3] == SCHEME_END && t[3..] == a && t[3 + u..] == b
    requires UserPart(a) == Some(u) && PasswordPart(b) == Some(p)
    ensures UrlMatch(t) == Some(3 + u + p)
  {
    hide UserPart, PasswordPart;
    assert SCHEME_END <= t;
  }

  lemma UrlParts(user: string, password: string, rest: string)
    ensures var tail := password + ("@" + rest);
            var t, n := SCHEME_END + (user + (":" + tail)), 3 + (|user| + 1) + (|password| + 1);
            && |t| >= n && t[..3] == SCHEME_END && t[3..] == user + (":" + tail)
            && t[3 + (|user| + 1)..] == tail && t[n..] == rest
  {
  }

  lemma {:induction false} MatchIsMasked(t: string, n: nat)
    requires UrlMatch(t) == Some(n)
    ensures RedactUrl(t) == SCHEME_END + MASK + RedactUrl(t[n..])
  {
    hide UrlMatch;
  }

  lemma {:induction false} UrlMatchesIn(t: string, user: string, password: string, tail: string)
    requires PasswordPart(tail) == Some(|password| + 1)
    requires UserPart(user + (":" + tail)) == Some(|user| + 1)
    requires |t| >= 3 + (|user| + 1) + (|password| + 1)
    requires t[..3] == SCHEME_END && t[3..] == user + (":" + tail) && t[3 + (|user| + 1)..] == tail
    ensures RedactUrl(t) == SCHEME_END + MASK + RedactUrl(t[3 + (|user| + 1) + (|password| + 1)..])
  {
    hide UserPart, PasswordPart, InUser, InPassword, UrlMatch, RedactUrl, Span;
    UrlMatchIs(t, user + (":" + tail), tail, |user| + 1, |password| + 1);
    MatchIsMasked(t, 3 + (|user| + 1) + (|password| + 1));
  }

  /** `://`, a user, a colon, a password, an at sign: the match takes them all and leaves the scheme. */
  lemma {:induction false} UrlMatches(user: string, password: string, rest: string)
    requires 1 <= |user| <= URL_USER_MAX && forall c | c in user :: InUser(c)
    requires URL_PASSWORD_MIN <= |password| && forall c | c in password :: InPassword(c)
    ensures RedactUrl(SCHEME_END + (user + (":" + (password + ("@" + rest))))) == SCHEME_END + MASK + RedactUrl(rest)
  {
    hide InUser, InPassword, RedactUrl, UserPart, PasswordPart;
    var tail := password + ("@" + rest);
    UserMatches(user, tail);
    PasswordMatches(password, rest);
    UrlParts(user, password, rest);
    UrlMatchesIn(SCHEME_END + (user + (":" + tail)), user, password, tail);
  }

  /** One match between two texts without slashes. */
  lemma {:induction false} UrlInside(before: string, user: string, password: string, rest: string)
    requires '/' !in before && '/' !in rest
    requires 1 <= |user| <= URL_USER_MAX && forall c | c in user :: InUser(c)
    requires URL_PASSWORD_MIN <= |password| && forall c | c in password :: InPassword(c)
    ensures RedactUrl(before + (SCHEME_END + (user + (":" + (password + ("@" + rest))))))
         == before + (SCHEME_END + MASK + rest)
  {
    var t := SCHEME_END + (user + (":" + (password + ("@" + rest))));
    assert rest + "" == rest && RedactUrl("") == "";
    hide RedactUrl, InUser, InPassword;
    assert t[0] == ':';
    NoUrlIn(before, t);
    UrlMatches(user, password, rest);
    NoUrlIn(rest, "");
  }

  // ---------------------------------------------------------------- a call that is swallowed

  /** Everything before the arguments of the first call. */
  function HeadText(call: ToolCall): string { LIST_HEAD + (Escaped(call.id) + NamePart(call)) }

  /** From the colon behind the first key of a later call to its arguments. */
  function KeyText(call: ToolCall): string { "\"" + (Escaped(call.id) + NamePart(call)) }

  lemma {:induction false} ListStarts(call: ToolCall, rest: seq<ToolCall>)
    ensures ListText([call] + rest) == HeadText(call) + (call.arguments + ("}" + TailText(rest)))
  {
    hide NamePart, TailText, Escaped;
    assert ([call] + rest)[0] == call && ([call] + rest)[1..] == rest;
    Regroup("[", ID_KEY, ":\"", Escaped(call.id), NamePart(call), call.arguments, "}", TailText(rest));
    hide ListText;
    RegroupHead(LIST_HEAD, Escaped(call.id), NamePart(call), call.arguments + ("}" + TailText(rest)));
  }

  lemma RegroupHead(a: string, b: string, c: string, d: string)
    ensures a + (b + (c + d)) == (a + (b + c)) + d
  {
  }

  lemma {:induction false} TailStarts(call: ToolCall, rest: seq<ToolCall>)
    ensures TailText([call] + rest)
         == "," + (ID_KEY + (":" + (KeyText(call) + (call.arguments + ("}" + TailText(rest))))))
  {
    hide NamePart, Escaped;
    assert ([call] + rest)[0] == call && ([call] + rest)[1..] == rest;
    RegroupKey(ID_KEY, Escaped(call.id), NamePart(call), call.arguments, TailText(rest));
  }

  lemma RegroupKey(a: string, b: string, c: string, d: string, e: string)
    ensures (a + (":\"" + (b + (c + (d + "}"))))) + e == a + (":" + (("\"" + (b + c)) + (d + ("}" + e))))
  {
    assert ":\"" == ":" + "\"";
  }

  /** Two calls, the first with an address in its arguments and the second with an at sign. */
  lemma {:induction false} SwallowedText(a: ToolCall, b: ToolCall, rest: seq<ToolCall>,
                                       a1: string, a2: string, b1: string, b2: string)
    requires a.arguments == a1 + (SCHEME_END + a2) && b.arguments == b1 + ("@" + b2)
    ensures ListText([a] + ([b] + rest))
         == (HeadText(a) + a1)
            + (SCHEME_END + ((a2 + ("}," + ID_KEY))
               + (":" + ((KeyText(b) + b1) + ("@" + (b2 + ("}" + TailText(rest))))))))
    ensures ListText([a.(arguments := a1 + (SCHEME_END + MASK + b2))] + rest)
         == (HeadText(a) + a1) + (SCHEME_END + MASK + (b2 + ("}" + TailText(rest))))
  {
    var merged := a.(arguments := a1 + (SCHEME_END + MASK + b2));
    var tail := KeyText(b) + (b.arguments + ("}" + TailText(rest)));
    ListStarts(a, [b] + rest);
    TailStarts(b, rest);
    ListStarts(merged, rest);
    assert HeadText(merged) == HeadText(a);
    hide ListText, HeadText, KeyText, TailText;
    RegroupFirst(HeadText(a), a1, SCHEME_END, a2, ID_KEY, tail);
    RegroupSecond(KeyText(b), b1, b2, TailText(rest));
    RegroupMerged(HeadText(a), a1, SCHEME_END + MASK, b2, TailText(rest));
  }

  lemma RegroupFirst(h: string, a1: string, s: string, a2: string, k: string, tail: string)
    ensures h + ((a1 + (s + a2)) + ("}" + ("," + (k + (":" + tail)))))
         == (h + a1) + (s + ((a2 + ("}," + k)) + (":" + tail)))
  {
    assert "}," == "}" + ",";
  }

  lemma RegroupSecond(k: string, b1: string, b2: string, tail: string)
    ensures k + ((b1 + ("@" + b2)) + ("}" + tail)) == (k + b1) + ("@" + (b2 + ("}" + tail)))
  {
  }

  lemma RegroupMerged(h: string, a1: string, m: string, b2: string, tail: string)
    ensures h + ((a1 + (m + b2)) + ("}" + tail)) == (h + a1) + (m + (b2 + ("}" + tail)))
  {
  }

  /**
   An address in one call and an at sign in the next read as a password in an address: the text between is masked, what
   is left is a shorter list, and the second call is gone from the record although its result is logged.
   */
  lemma {:induction false} AddressSwallowsCall(r: Redactor, before: seq<Rule>, after: seq<Rule>, a: ToolCall, b: ToolCall,
                            rest: seq<ToolCall>, a1: string, a2: string, b1: string, b2: string)
    requires r.rules == before + ([RedactUrl] + after)
    requires a.arguments == a1 + (SCHEME_END + a2) && b.arguments == b1 + ("@" + b2)
    requires '/' !in HeadText(a) + a1 && '/' !in b2 + ("}" + TailText(rest))
    requires |a2| <= 57 && (forall c | c in a2 :: InUser(c)) && forall c | c in KeyText(b) + b1 :: InPassword(c)
    requires Untouched(before, ListText([a] + ([b] + rest)))
    requires var left := [a.(arguments := a1 + (SCHEME_END + MASK + b2))] + rest;
             Untouched(after, ListText(left)) && ReadsBack(r, left)
    ensures LoggedCalls(r, [a] + ([b] + rest)) == Some([a.(arguments := a1 + (SCHEME_END + MASK + b2))] + rest)
    ensures !KeepsIds(r, [a] + ([b] + rest))
  {
    var calls, left := [a] + ([b] + rest), [a.(arguments := a1 + (SCHEME_END + MASK + b2))] + rest;
    var user := a2 + ("}," + ID_KEY);
    SwallowedText(a, b, rest, a1, a2, b1, b2);
    BetweenIsUser(a2);
    assert |KeyText(b)| >= 4 by { hide Escaped; assert |NAME_KEY| >= 4; }
    hide ListText, HeadText, KeyText, TailText, RedactUrl, InUser, InPassword;
    UrlInside(HeadText(a) + a1, user, KeyText(b) + b1, b2 + ("}" + TailText(rest)));
    OneRuleActs(before, RedactUrl, after, ListText(calls));
    assert |CallIds(left)| == 1 + |rest| && |CallIds(calls)| == 2 + |rest|;
  }

  lemma BetweenIsUser(a2: string)
    requires |a2| <= 57 && forall c | c in a2 :: InUser(c)
    ensures var user := a2 + ("}," + ID_KEY); 1 <= |user| <= URL_USER_MAX && forall c | c in user :: InUser(c)
  {
    var between := "}," + ID_KEY;
    assert between == ['}', ',', '{', '"', 'i', 'd', '"'];
    assert forall c | c in between :: InUser(c);
  }

  // ---------------------------------------------------------------- an input for each

  function Server(): string { "chatcmpl-tool-" }

  function Digits(): string { "0123456789abcdef0123456789abcdef" }

  function ServerCall(): ToolCall { ToolCall(Server() + Digits(), "ls", "{}") }

  function CutCall(): ToolCall { ToolCall(Server() + "01234567***", "ls", "{}") }

  lemma ServerFits()
    ensures (forall c | c in Server() :: Plain(c)) && RedactHex(Server()) == Server() && Parted(Server(), Digits())
  {
    hide RedactHex, Digits;
    assert Server()[13] == '-';
    ShortStays(Server());
  }

  lemma DigitsFit()
    ensures AllHex(Digits()) && |Digits()| == 32 && Digits()[..8] + MASK == "01234567***"
  {
  }

  lemma BehindServerStays()
    ensures RedactHex(BehindId([ServerCall()])) == BehindId([ServerCall()])
  {
    hide RedactHex, Server, Digits;
    PlainStays("ls");
    assert [ServerCall()][1..] == [] && |BehindId([ServerCall()])| == 30;
    ShortStays(BehindId([ServerCall()]));
  }

  /** The id `chatcmpl-tool-` with 32 hexadecimal digits is logged as `chatcmpl-tool-01234567***`. */
  lemma HexIdExample(r: Redactor, before: seq<Rule>, after: seq<Rule>)
    requires r.rules == before + ([RedactHex] + after)
    requires Untouched(before, ListText([ServerCall()]))
    requires Untouched(after, ListText([CutCall()])) && ReadsBack(r, [CutCall()])
    ensures LoggedCalls(r, [ServerCall()]) == Some([CutCall()]) && !KeepsIds(r, [ServerCall()])
  {
    hide Plain, RedactHex, ListText, BehindId, LoggedCalls, KeepsIds, Untouched, ReadsBack, AllHex, Parted;
    ServerFits();
    DigitsFit();
    BehindServerStays();
    hide Server, Digits;
    assert CutId([ServerCall()], Server(), Digits()) == [CutCall()];
    HexIdIsLost(r, before, after, [ServerCall()], Server(), Digits());
  }

  function FetchStart(): string { "{\"url\":\"https" }

  function MailStart(): string { "{\"to\":\"ops" }

  function Site(): string { "example.com\"}" }

  function FetchCall(): ToolCall { ToolCall("call_a", "web_fetch", FetchStart() + (SCHEME_END + Site())) }

  function MailCall(): ToolCall { ToolCall("call_b", "mail", MailStart() + ("@" + Site())) }

  /** What is left of the two. */
  function MergedCall(): ToolCall { FetchCall().(arguments := FetchStart() + (SCHEME_END + MASK + Site())) }

  lemma FetchIsPlain()
    ensures forall c | c in FetchCall().id || c in FetchCall().name :: Plain(c) && InPassword(c)
  {
  }

  lemma MailIsPlain()
    ensures forall c | c in MailCall().id || c in MailCall().name :: Plain(c) && InPassword(c)
  {
  }

  lemma SiteFits()
    ensures '/' !in Site() && |Site()| <= 57 && forall c | c in Site() :: InUser(c)
  {
  }

  lemma StartsFit()
    ensures '/' !in FetchStart() && forall c | c in MailStart() :: InPassword(c)
  {
  }

  lemma KeysHaveNoSlash()
    ensures '/' !in LIST_HEAD && '/' !in NAME_KEY && '/' !in ARGUMENTS_KEY
  {
  }

  lemma NoSlashAhead(call: ToolCall)
    requires forall c | c in call.id || c in call.name :: Plain(c) && InPassword(c)
    ensures '/' !in HeadText(call)
  {
    PlainStays(call.id);
    PlainStays(call.name);
    KeysHaveNoSlash();
    hide Plain, Escaped;
  }

  lemma KeyIsPassword(call: ToolCall)
    requires forall c | c in call.id || c in call.name :: Plain(c) && InPassword(c)
    ensures forall c | c in KeyText(call) :: InPassword(c)
  {
    PlainStays(call.id);
    PlainStays(call.name);
    KeysArePasswords();
    hide Plain, InPassword;
  }

  lemma KeysArePasswords()
    ensures forall c | c in "\"" || c in NAME_KEY || c in ARGUMENTS_KEY :: InPassword(c)
  {
  }

  /** An address fetched by one call and an at sign in the next: the second call is gone from the record. */
  lemma AddressExample(r: Redactor, before: seq<Rule>, after: seq<Rule>)
    requires r.rules == before + ([RedactUrl] + after)
    requires Untouched(before, ListText([FetchCall(), MailCall()]))
    requires Untouched(after, ListText([MergedCall()])) && ReadsBack(r, [MergedCall()])
    ensures LoggedCalls(r, [FetchCall(), MailCall()]) == Some([MergedCall()])
    ensures !KeepsIds(r, [FetchCall(), MailCall()])
  {
    hide Plain, InUser, InPassword, LoggedCalls, KeepsIds, Untouched, ReadsBack;
    hide ListText, RedactUrl, HeadText, KeyText, Redact;
    FetchIsPlain();
    MailIsPlain();
    NoSlashAhead(FetchCall());
    KeyIsPassword(MailCall());
    SiteFits();
    StartsFit();
    hide FetchStart, MailStart, Site;
    assert [FetchCall()] + ([MailCall()] + []) == [FetchCall(), MailCall()] && [MergedCall()] + [] == [MergedCall()];
    assert '/' !in HeadText(FetchCall()) + FetchStart();
    assert TailText([]) == "]" && '/' !in Site() + ("}" + "]");
    AddressSwallowsCall(r, before, after, FetchCall(), MailCall(), [], FetchStart(), Site(), MailStart(), Site());
  }
}
