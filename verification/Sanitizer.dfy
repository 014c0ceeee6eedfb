/** Redaction of ARNs and account numbers in review artifacts
    (scripts/classify_real_pilot_findings.py, sanitize_text, sanitize_json and _tail_name).

    The two regular expressions are scans: `ArnAt` and `AccountAt` say that a match starts at
    a position, and each pass replaces the leftmost matches from left to right. Which characters
    outside ASCII count as word characters is left to the parameter `word`. */
module Sanitizer {
  import opened JsonTree

  type WordClass = char -> bool

  predicate IsDigit(c: char) { '0' <= c <= '9' }

  predicate IsAsciiWord(c: char) {
    IsDigit(c) || 'A' <= c <= 'Z' || 'a' <= c <= 'z' || c == '_'
  }

  /** The class agrees with \w on ASCII. */
  ghost predicate AsciiAgrees(word: WordClass) {
    forall c: char :: c < '\U{80}' ==> (word(c) <==> IsAsciiWord(c))
  }

  const ACCOUNT_MARK := "<redacted-aws-account-id>"

  // ----- \b[0-9]{12}\b -----

  predicate DigitsAt(t: string, i: nat, n: nat) {
    i + n <= |t| && forall k | i <= k < i + n :: IsDigit(t[k])
  }

  predicate AccountAt(word: WordClass, t: string, i: nat) {
    && DigitsAt(t, i, 12)
    && (i == 0 || !word(t[i-1]))
    && (i + 12 == |t| || !word(t[i+12]))
  }

  /** What the account pass makes of t from position i on. */
  function SubAccounts(word: WordClass, t: string, i: nat): string
    decreases |t| - i
  {
    if i >= |t| then ""
    else if AccountAt(word, t, i) then ACCOUNT_MARK + SubAccounts(word, t, i + 12)
    else [t[i]] + SubAccounts(word, t, i + 1)
  }

  // ----- arn:aws:(iam|sts)::[0-9]{12}:([A-Za-z0-9+=,.@_:/-]+) -----

  predicate IsResourceChar(c: char) {
    IsAsciiWord(c) || c in "+=,.@:/-"
  }

  predicate LiteralAt(t: string, i: nat, lit: string) {
    i + |lit| <= |t| && t[i..i+|lit|] == lit
  }

  predicate ArnAt(t: string, i: nat) {
    && (LiteralAt(t, i, "arn:aws:iam::") || LiteralAt(t, i, "arn:aws:sts::"))
    && DigitsAt(t, i + 13, 12)
    && LiteralAt(t, i + 25, ":")
    && i + 26 < |t| && IsResourceChar(t[i+26])
  }

  /** The end of the longest run of resource characters from i on. */
  function RunEnd(t: string, i: nat): (r: nat)
    requires i <= |t|
    ensures i <= r <= |t|
    ensures forall k | i <= k < r :: IsResourceChar(t[k])
    ensures r < |t| ==> !IsResourceChar(t[r])
    decreases |t| - i
  {
    if i < |t| && IsResourceChar(t[i]) then RunEnd(t, i + 1) else i
  }

  /** The parts of s between its slashes. */
  function SplitSlash(s: string): (r: seq<string>)
    ensures |r| >= 1
    ensures forall part | part in r :: '/' !in part
  {
    if s == "" then [""]
    else
      var rest := SplitSlash(s[1..]);
      if s[0] == '/' then [""] + rest else [[s[0]] + rest[0]] + rest[1..]
  }

  /** s without the slashes at its end. */
  function StripSlashes(s: string): string {
    if s != "" && s[|s|-1] == '/' then StripSlashes(s[..|s|-1]) else s
  }

  /** The name shown for an ARN with this resource part. */
  function TailName(resource: string): string {
    if "assumed-role/" <= resource then
      var parts := SplitSlash(resource);
      if |parts| > 1 && parts[1] != "" then parts[1] else "assumed-role"
    else if '/' in resource then
      var parts := SplitSlash(StripSlashes(resource));
      if parts[|parts|-1] != "" then parts[|parts|-1] else SplitSlash(resource)[0]
    else if resource != "" then resource
    else "resource"
  }

  function ArnMark(t: string, i: nat): string
    requires ArnAt(t, i)
  {
    "<redacted-" + t[i+8..i+11] + "-arn:" + TailName(t[i+26..RunEnd(t, i + 26)]) + ">"
  }

  function SubArns(t: string, i: nat): string
    decreases |t| - i
  {
    if i >= |t| then ""
    else if ArnAt(t, i) then ArnMark(t, i) + SubArns(t, RunEnd(t, i + 26))
    else [t[i]] + SubArns(t, i + 1)
  }

  /** ARNs first, then account numbers: the ARN pass puts back the tail, which the account
      pass then sees. */
  function SanitizeText(word: WordClass, t: string): string {
    SubAccounts(word, SubArns(t, 0), 0)
  }

  // ----- what is left -----

  ghost predicate NoAccounts(word: WordClass, t: string) {
    forall i :: 0 <= i <= |t| ==> !AccountAt(word, t, i)
  }

  ghost predicate NoArns(t: string) {
    forall i :: 0 <= i <= |t| ==> !ArnAt(t, i)
  }

  /** An account number in s, when s follows a character that is (`after`) a word character. */
  predicate AccountAfter(word: WordClass, after: bool, s: string, k: nat) {
    && DigitsAt(s, k, 12)
    && (if k == 0 then !after else !word(s[k-1]))
    && (k + 12 == |s| || !word(s[k+12]))
  }

  lemma DigitsAreWords(word: WordClass, c: char)
    requires AsciiAgrees(word) && IsDigit(c)
    ensures word(c)
  {
  }

  /** Leading digits of the output were copied. */
  lemma {:induction false} CopiedDigits(word: WordClass, t: string, i: nat, n: nat)
    requires DigitsAt(SubAccounts(word, t, i), 0, n)
    ensures i + n <= |t| || n == 0
    ensures n > 0 ==> DigitsAt(t, i, n) && SubAccounts(word, t, i)[n..] == SubAccounts(word, t, i + n)
    decreases n
  {
    hide SubAccounts, IsDigit;
    var s := SubAccounts(word, t, i);
    if n > 0 {
      FirstDigit(word, t, i);
      var rest := SubAccounts(word, t, i + 1);
      assert forall k | 0 <= k < n - 1 :: rest[k] == s[k+1];
      CopiedDigits(word, t, i + 1, n - 1);
      assert s[n..] == rest[n-1..];
      if n == 1 { assert rest[0..] == rest; }
    } else {
      assert s[0..] == s;
    }
  }

  lemma FirstDigit(word: WordClass, t: string, i: nat)
    requires SubAccounts(word, t, i) != "" && IsDigit(SubAccounts(word, t, i)[0])
    ensures i < |t| && SubAccounts(word, t, i) == [t[i]] + SubAccounts(word, t, i + 1)
  {
    assert ACCOUNT_MARK[0] == '<';
  }

  /** A match in `mark + s` lies in s when the mark has no digit, and its last character
      is not a word character. */
  lemma AfterPrefix(word: WordClass, after: bool, mark: string, s: string, k: nat)
    requires mark != "" && (forall c | c in mark :: !IsDigit(c)) && !word(mark[|mark|-1])
    requires AccountAfter(word, after, mark + s, k)
    ensures k >= |mark| && AccountAfter(word, false, s, k - |mark|)
  {
    var all := mark + s;
    assert IsDigit(all[k]);
    assert forall j | 0 <= j < |mark| :: all[j] == mark[j];
    assert forall j | 0 <= j < |s| :: all[|mark| + j] == s[j];
  }

  lemma MarkIsInert(word: WordClass)
    requires AsciiAgrees(word)
    ensures |ACCOUNT_MARK| == 25 && ACCOUNT_MARK[0] == '<' && !word(ACCOUNT_MARK[24])
    ensures forall c | c in ACCOUNT_MARK :: !IsDigit(c)
  {
    assert ACCOUNT_MARK[24] == '>';
  }

  lemma AfterChar(word: WordClass, after: bool, c: char, s: string, k: nat)
    requires k > 0 && AccountAfter(word, after, [c] + s, k)
    ensures AccountAfter(word, word(c), s, k - 1)
  {
    var all := [c] + s;
    assert forall j | 0 <= j < |s| :: all[1 + j] == s[j];
  }

  /** A character that follows a word character is copied. */
  lemma NextIsCopied(word: WordClass, t: string, i: nat, j: nat)
    requires 0 < j == i + 12 < |t| && word(t[j-1])
    requires |SubAccounts(word, t, i)| >= 12 && SubAccounts(word, t, i)[12..] == SubAccounts(word, t, j)
    ensures |SubAccounts(word, t, i)| > 12 && SubAccounts(word, t, i)[12] == t[j]
  {
    assert SubAccounts(word, t, i)[12..][0] == t[j];
  }

  /** A match at the very start of the remaining output would have been a match of the input. */
  lemma FirstIsInput(word: WordClass, t: string, i: nat, after: bool)
    requires AsciiAgrees(word) && i < |t| && !AccountAt(word, t, i)
    requires after == (i > 0 && word(t[i-1])) || (!after && !word(t[i]))
    ensures !AccountAfter(word, after, SubAccounts(word, t, i), 0)
  {
    if AccountAfter(word, after, SubAccounts(word, t, i), 0) {
      CopiedDigits(word, t, i, 12);
      DigitsAreWords(word, t[i]);
      DigitsAreWords(word, t[i+11]);
      if i + 12 < |t| { NextIsCopied(word, t, i, i + 12); }
    }
  }

  lemma {:induction false} OutputClean(word: WordClass, t: string, i: nat, after: bool, k: nat)
    requires AsciiAgrees(word) && i <= |t|
    requires after == (i > 0 && word(t[i-1])) || (!after && (i == |t| || !word(t[i])))
    ensures !AccountAfter(word, after, SubAccounts(word, t, i), k)
    decreases |t| - i
  {
    var s := SubAccounts(word, t, i);
    if i < |t| && AccountAfter(word, after, s, k) {
      if AccountAt(word, t, i) {
        MarkIsInert(word);
        AfterPrefix(word, after, ACCOUNT_MARK, SubAccounts(word, t, i + 12), k);
        OutputClean(word, t, i + 12, false, k - |ACCOUNT_MARK|);
      } else if k == 0 {
        FirstIsInput(word, t, i, after);
      } else {
        AfterChar(word, after, t[i], SubAccounts(word, t, i + 1), k);
        OutputClean(word, t, i + 1, word(t[i]), k - 1);
      }
    }
  }

  /** The account pass leaves no account number, old or new. */
  lemma AccountPassClean(word: WordClass, t: string)
    requires AsciiAgrees(word)
    ensures NoAccounts(word, SubAccounts(word, t, 0))
  {
    var s := SubAccounts(word, t, 0);
    forall k | 0 <= k <= |s| ensures !AccountAt(word, s, k) {
      OutputClean(word, t, 0, false, k);
    }
  }

  /** Every ARN contains a delimited account number, so text without one has no ARN. */
  lemma NoAccountsNoArns(word: WordClass, t: string)
    requires AsciiAgrees(word) && NoAccounts(word, t)
    ensures NoArns(t)
  {
    forall i | 0 <= i <= |t| ensures !ArnAt(t, i) {
      if ArnAt(t, i) {
        ColonsAround(t, i);
        assert !word(':');
        assert AccountAt(word, t, i + 13);
      }
    }
  }

  lemma ColonsAround(t: string, i: nat)
    requires ArnAt(t, i)
    ensures t[i+12] == ':' && t[i+25] == ':'
  {
    assert t[i..i+13][12] == t[i+12];
    assert t[i+25..i+26][0] == t[i+25];
  }

  /** For every text the sanitised text contains neither a delimited account number nor an ARN. */
  lemma SanitizedIsClean(word: WordClass, t: string)
    requires AsciiAgrees(word)
    ensures NoAccounts(word, SanitizeText(word, t)) && NoArns(SanitizeText(word, t))
  {
    AccountPassClean(word, SubArns(t, 0));
    NoAccountsNoArns(word, SanitizeText(word, t));
  }

  lemma {:induction false} ArnPassIdle(t: string, i: nat)
    requires NoArns(t) && i <= |t|
    ensures SubArns(t, i) == t[i..]
    decreases |t| - i
  {
    hide ArnAt;
    if i < |t| {
      assert !ArnAt(t, i);
      ArnPassIdle(t, i + 1);
      assert [t[i]] + t[i+1..] == t[i..];
    }
  }

  lemma {:induction false} AccountPassIdle(word: WordClass, t: string, i: nat)
    requires NoAccounts(word, t) && i <= |t|
    ensures SubAccounts(word, t, i) == t[i..]
    decreases |t| - i
  {
    hide AccountAt;
    if i < |t| {
      assert !AccountAt(word, t, i);
      AccountPassIdle(word, t, i + 1);
      assert [t[i]] + t[i+1..] == t[i..];
    }
  }

  /** Clean text is left alone. */
  lemma CleanIsFixed(word: WordClass, t: string)
    requires NoAccounts(word, t) && NoArns(t)
    ensures SanitizeText(word, t) == t
  {
    ArnPassIdle(t, 0);
    assert t[0..] == t;
    AccountPassIdle(word, t, 0);
  }

  /** Sanitising twice is sanitising once. */
  lemma SanitizeIdempotent(word: WordClass, t: string)
    requires AsciiAgrees(word)
    ensures SanitizeText(word, SanitizeText(word, t)) == SanitizeText(word, t)
  {
    SanitizedIsClean(word, t);
    CleanIsFixed(word, SanitizeText(word, t));
  }

  /** In the other order the ARN pass would never find anything. */
  lemma OrderMatters(word: WordClass, t: string)
    requires AsciiAgrees(word)
    ensures SubArns(SubAccounts(word, t, 0), 0) == SubAccounts(word, t, 0)
  {
    AccountPassClean(word, t);
    NoAccountsNoArns(word, SubAccounts(word, t, 0));
    ArnPassIdle(SubAccounts(word, t, 0), 0);
  }

  /** A text is left alone exactly when it holds no delimited account number. */
  lemma UntouchedExactly(word: WordClass, t: string)
    requires AsciiAgrees(word)
    ensures SanitizeText(word, t) == t <==> NoAccounts(word, t)
  {
    SanitizedIsClean(word, t);
    if NoAccounts(word, t) {
      NoAccountsNoArns(word, t);
      CleanIsFixed(word, t);
    }
  }

  // ----- the name kept for an ARN -----

  predicate OnlySlashes(s: string) { forall c | c in s :: c == '/' }

  lemma {:induction false} SplitAfterSlash(s: string)
    ensures SplitSlash(s + "/") == SplitSlash(s) + [""]
  {
    if s == "" {
      assert s + "/" == "/";
      assert SplitSlash("/"[1..]) == [""];
    } else {
      assert (s + "/")[1..] == s[1..] + "/";
      SplitAfterSlash(s[1..]);
    }
  }

  lemma {:induction false} SplitEnd(s: string)
    requires s != "" && s[|s|-1] != '/'
    ensures SplitSlash(s)[|SplitSlash(s)|-1] != ""
  {
    if |s| > 1 {
      SplitEnd(s[1..]);
    } else {
      assert SplitSlash(s[1..]) == [""];
    }
  }

  /** Stripping drops only empty components, and everything only when there is nothing else. */
  lemma {:induction false} StripKeepsNames(s: string)
    ensures SplitSlash(StripSlashes(s)) <= SplitSlash(s)
    ensures forall i | |SplitSlash(StripSlashes(s))| <= i < |SplitSlash(s)| :: SplitSlash(s)[i] == ""
    ensures StripSlashes(s) == "" <==> OnlySlashes(s)
    ensures StripSlashes(s) != "" ==> StripSlashes(s)[|StripSlashes(s)|-1] != '/'
  {
    if s != "" && s[|s|-1] == '/' {
      var front := s[..|s|-1];
      assert s == front + "/";
      SplitAfterSlash(front);
      StripKeepsNames(front);
      assert forall c :: c in s <==> c in front || c == '/';
    } else if s != "" {
      assert s[|s|-1] in s;
    }
  }

  lemma {:induction false} SplitWithoutSlash(s: string)
    requires '/' !in s
    ensures SplitSlash(s) == [s]
  {
    if s != "" {
      assert s == [s[0]] + s[1..];
      SplitWithoutSlash(s[1..]);
    }
  }

  ghost predicate AllEmpty(parts: seq<string>) { forall i | 0 <= i < |parts| :: parts[i] == "" }

  lemma {:induction false} NoPartsOnlySlashes(s: string)
    ensures OnlySlashes(s) <==> AllEmpty(SplitSlash(s))
  {
    if s != "" {
      var rest := SplitSlash(s[1..]);
      NoPartsOnlySlashes(s[1..]);
      assert forall c :: c in s <==> c == s[0] || c in s[1..];
      if s[0] == '/' {
        assert AllEmpty([""] + rest) <==> AllEmpty(rest) by {
          assert forall i | 0 <= i < |rest| :: ([""] + rest)[i+1] == rest[i];
        }
      } else {
        assert SplitSlash(s)[0] == [s[0]] + rest[0];
        assert s[0] in s;
      }
    }
  }

  /** part i is the last nonempty part. */
  ghost predicate LastName(parts: seq<string>, i: nat) {
    i < |parts| && parts[i] != "" && forall j | i < j < |parts| :: parts[j] == ""
  }

  lemma StrippedEnd(resource: string)
    requires !OnlySlashes(resource)
    ensures var kept := SplitSlash(StripSlashes(resource));
            LastName(SplitSlash(resource), |kept| - 1) && SplitSlash(resource)[|kept|-1] == kept[|kept|-1]
  {
    hide SplitSlash, StripSlashes;
    StripKeepsNames(resource);
    SplitEnd(StripSlashes(resource));
  }

  /** Apart from an assumed role, whose name is its second component, the name kept is the last
      nonempty component of the resource, and it is empty exactly for a run of slashes. */
  lemma TailIsLastName(resource: string)
    requires resource != "" && !("assumed-role/" <= resource)
    ensures TailName(resource) == "" <==> OnlySlashes(resource)
    ensures !OnlySlashes(resource) ==>
              exists i: nat :: LastName(SplitSlash(resource), i) && SplitSlash(resource)[i] == TailName(resource)
  {
    hide SplitSlash, StripSlashes;
    assert resource[0] in resource;
    if '/' !in resource {
      SplitWithoutSlash(resource);
      assert LastName(SplitSlash(resource), 0);
    } else if !OnlySlashes(resource) {
      StrippedEnd(resource);
    } else {
      StripKeepsNames(resource);
      NoPartsOnlySlashes(resource);
      assert SplitSlash("") == [""] by { SplitWithoutSlash(""); }
    }
  }

  lemma AssumedRoleName(role: string, session: string)
    requires role != "" && '/' !in role
    ensures TailName("assumed-role/" + role + "/" + session) == role
  {
    var tail := role + "/" + session;
    assert "assumed-role/" + role + "/" + session == "assumed-role" + "/" + tail;
    SplitFirst("assumed-role", tail);
    SplitFirst(role, session);
    assert tail == role + "/" + session;
  }

  lemma {:induction false} SplitFirst(a: string, b: string)
    requires '/' !in a
    ensures SplitSlash(a + "/" + b) == [a] + SplitSlash(b)
  {
    if a == "" {
      assert (a + "/" + b)[1..] == b;
    } else {
      assert (a + "/" + b)[1..] == a[1..] + "/" + b;
      SplitFirst(a[1..], b);
      assert [a[0]] + a[1..] == a;
    }
  }

  // ----- JSON values -----

  /** Storing a key in an ordered dict: an existing key keeps its place. */
  function Put(ms: seq<Member>, m: Member): (r: seq<Member>)
    ensures m in r
  {
    if ms == [] then [m]
    else if ms[0].key == m.key then [m] + ms[1..]
    else [ms[0]] + Put(ms[1..], m)
  }

  function SanitizeJson(word: WordClass, j: Json): Json
    decreases j
  {
    match j
    case Object(ms) => Object(SanitizeMembers(word, j, |ms|))
    case List(items) => List(seq(|items|, i requires 0 <= i < |items| => SanitizeJson(word, items[i])))
    case Text(s) => Text(SanitizeText(word, s))
    case _ => j
  }

  /** The dict built from the first n members. */
  function SanitizeMembers(word: WordClass, j: Json, n: nat): seq<Member>
    requires j.Object? && n <= |j.members|
    decreases j, n
  {
    if n == 0 then []
    else Put(SanitizeMembers(word, j, n - 1), NewMember(word, j, n - 1))
  }

  function NewMember(word: WordClass, j: Json, i: nat): Member
    requires j.Object? && i < |j.members|
    decreases j, i
  {
    Member(SanitizeText(word, j.members[i].key), SanitizeJson(word, j.members[i].value))
  }

  /** Every key and every string, at any depth, is free of account numbers and ARNs. */
  ghost predicate CleanJson(word: WordClass, j: Json) {
    match j
    case Object(ms) => forall m | m in ms :: NoAccounts(word, m.key) && NoArns(m.key) && CleanJson(word, m.value)
    case List(items) => forall x | x in items :: CleanJson(word, x)
    case Text(s) => NoAccounts(word, s) && NoArns(s)
    case _ => true
  }

  predicate HasKey(ms: seq<Member>, key: string) { exists x :: x in ms && x.key == key }

  lemma {:induction false} PutMembers(ms: seq<Member>, m: Member)
    requires DistinctKeys(ms)
    ensures DistinctKeys(Put(ms, m))
    ensures forall x :: x in Put(ms, m) <==> x == m || (x in ms && x.key != m.key)
  {
    if ms != [] {
      var rest := ms[1..];
      assert forall x :: x in ms <==> x == ms[0] || x in rest;
      if ms[0].key != m.key {
        PutMembers(rest, m);
        assert forall x :: x in Put(ms, m) <==> x == ms[0] || x in Put(rest, m);
        assert DistinctKeys([ms[0]] + Put(rest, m));
      }
    }
  }

  lemma {:induction false} PutSize(ms: seq<Member>, m: Member)
    ensures HasKey(ms, m.key) ==> |Put(ms, m)| == |ms|
    ensures !HasKey(ms, m.key) ==> Put(ms, m) == ms + [m]
  {
    if ms != [] {
      assert ms == [ms[0]] + ms[1..];
      PutSize(ms[1..], m);
    }
  }

  /** No account number and no ARN survives at any depth, and keys stay distinct. */
  lemma {:induction false} SanitizedJsonIsClean(word: WordClass, j: Json)
    requires AsciiAgrees(word)
    ensures CleanJson(word, SanitizeJson(word, j)) && Proper(SanitizeJson(word, j))
    decreases j
  {
    match j
    case Object(ms) => CleanMembers(word, j, |ms|);
    case List(items) => forall x | x in items { SanitizedJsonIsClean(word, x); }
    case Text(s) => SanitizedIsClean(word, s);
    case _ =>
  }

  lemma {:induction false} CleanMembers(word: WordClass, j: Json, n: nat)
    requires AsciiAgrees(word) && j.Object? && n <= |j.members|
    ensures CleanJson(word, Object(SanitizeMembers(word, j, n))) && Proper(Object(SanitizeMembers(word, j, n)))
    decreases j, n
  {
    hide SanitizeText, NoAccounts, NoArns, Put;
    if n > 0 {
      CleanMembers(word, j, n - 1);
      SanitizedIsClean(word, j.members[n-1].key);
      SanitizedJsonIsClean(word, j.members[n-1].value);
      PutMembers(SanitizeMembers(word, j, n - 1), NewMember(word, j, n - 1));
    }
  }

  lemma {:induction false} CleanJsonIsFixed(word: WordClass, j: Json)
    requires CleanJson(word, j) && Proper(j)
    ensures SanitizeJson(word, j) == j
    decreases j
  {
    match j
    case Object(ms) =>
      FixedMembers(word, j, |ms|);
      assert ms[..|ms|] == ms;
    case List(items) => forall x | x in items { CleanJsonIsFixed(word, x); }
    case Text(s) => CleanIsFixed(word, s);
    case _ =>
  }

  lemma {:induction false} FixedMembers(word: WordClass, j: Json, n: nat)
    requires j.Object? && n <= |j.members| && CleanJson(word, j) && Proper(j)
    ensures SanitizeMembers(word, j, n) == j.members[..n]
    decreases j, n
  {
    hide SanitizeText, NoAccounts, NoArns, Put;
    if n > 0 {
      var m := j.members[n-1];
      FixedMembers(word, j, n - 1);
      CleanIsFixed(word, m.key);
      CleanJsonIsFixed(word, m.value);
      PutSize(j.members[..n-1], m);
    }
  }

  /** Sanitising a document twice is sanitising it once. */
  lemma SanitizeJsonIdempotent(word: WordClass, j: Json)
    requires AsciiAgrees(word)
    ensures SanitizeJson(word, SanitizeJson(word, j)) == SanitizeJson(word, j)
  {
    SanitizedJsonIsClean(word, j);
    CleanJsonIsFixed(word, SanitizeJson(word, j));
  }

  /** No two of the first n keys become equal. */
  ghost predicate KeysStayApart(word: WordClass, j: Json, n: nat)
    requires j.Object? && n <= |j.members|
  {
    forall i, k | 0 <= i < k < n :: NewMember(word, j, i).key != NewMember(word, j, k).key
  }

  ghost predicate LastWithKey(word: WordClass, j: Json, i: nat, n: nat)
    requires j.Object? && i < n <= |j.members|
  {
    forall k | i < k < n :: NewMember(word, j, k).key != NewMember(word, j, i).key
  }

  /** m comes from the last of the first n members whose keys become m.key. */
  ghost predicate Survives(word: WordClass, j: Json, n: nat, m: Member)
    requires j.Object? && n <= |j.members|
  {
    exists i :: 0 <= i < n && m == NewMember(word, j, i) && LastWithKey(word, j, i, n)
  }

  lemma SurvivesStep(word: WordClass, j: Json, n: nat, m: Member)
    requires j.Object? && 0 < n <= |j.members|
    ensures var last := NewMember(word, j, n - 1);
            Survives(word, j, n, m) <==> m == last || (Survives(word, j, n - 1, m) && m.key != last.key)
  {
    hide NewMember, LastWithKey;
    LastStep(word, j, n);
    var last := NewMember(word, j, n - 1);
    if Survives(word, j, n - 1, m) && m.key != last.key {
      var i :| 0 <= i < n - 1 && m == NewMember(word, j, i) && LastWithKey(word, j, i, n - 1);
      assert LastWithKey(word, j, i, n);
    }
    if Survives(word, j, n, m) && m != last {
      var i :| 0 <= i < n && m == NewMember(word, j, i) && LastWithKey(word, j, i, n);
      assert LastWithKey(word, j, i, n - 1);
    }
  }

  lemma LastStep(word: WordClass, j: Json, n: nat)
    requires j.Object? && 0 < n <= |j.members|
    ensures LastWithKey(word, j, n - 1, n)
    ensures forall i | 0 <= i < n - 1 ::
              LastWithKey(word, j, i, n) <==>
              LastWithKey(word, j, i, n - 1) && NewMember(word, j, i).key != NewMember(word, j, n - 1).key
  {
    hide NewMember;
  }

  /** Keys that become equal share one entry, which holds the value of the last of them. */
  lemma {:induction false} LastMemberWins(word: WordClass, j: Json, n: nat)
    requires j.Object? && n <= |j.members|
    ensures DistinctKeys(SanitizeMembers(word, j, n))
    ensures forall m :: m in SanitizeMembers(word, j, n) <==> Survives(word, j, n, m)
    decreases n
  {
    hide Put, NewMember;
    if n > 0 {
      LastMemberWins(word, j, n - 1);
      PutMembers(SanitizeMembers(word, j, n - 1), NewMember(word, j, n - 1));
      forall m { SurvivesStep(word, j, n, m); }
    }
  }

  predicate KeyUsed(word: WordClass, j: Json, n: nat, key: string)
    requires j.Object? && n <= |j.members|
  {
    exists i :: 0 <= i < n && NewMember(word, j, i).key == key
  }

  /** The keys of the new dict are the sanitised keys. */
  lemma {:induction false} KeysAppear(word: WordClass, j: Json, n: nat, key: string)
    requires j.Object? && n <= |j.members|
    ensures HasKey(SanitizeMembers(word, j, n), key) <==> KeyUsed(word, j, n, key)
    decreases n
  {
    hide SanitizeText, Put, NewMember;
    if n > 0 {
      var before, last := SanitizeMembers(word, j, n - 1), NewMember(word, j, n - 1);
      KeysAppear(word, j, n - 1, key);
      LastMemberWins(word, j, n - 1);
      PutMembers(before, last);
      assert HasKey(Put(before, last), key) <==> HasKey(before, key) || last.key == key by {
        assert forall x | x in before :: x in Put(before, last) || x.key == last.key;
      }
      assert KeyUsed(word, j, n, key) <==> KeyUsed(word, j, n - 1, key) || last.key == key;
    }
  }

  lemma ApartStep(word: WordClass, j: Json, n: nat)
    requires j.Object? && n <= |j.members|
    ensures n == 0 ==> KeysStayApart(word, j, n)
    ensures n > 0 ==> (KeysStayApart(word, j, n) <==>
              KeysStayApart(word, j, n - 1) && !KeyUsed(word, j, n - 1, NewMember(word, j, n - 1).key))
  {
    hide NewMember;
  }

  /** A dict keeps all its entries exactly when sanitising keeps its keys apart. */
  lemma {:induction false} EntriesExactly(word: WordClass, j: Json, n: nat)
    requires j.Object? && n <= |j.members|
    ensures |SanitizeMembers(word, j, n)| <= n
    ensures |SanitizeMembers(word, j, n)| == n <==> KeysStayApart(word, j, n)
    decreases n
  {
    hide Put, HasKey, KeyUsed, KeysStayApart, NewMember;
    ApartStep(word, j, n);
    if n > 0 {
      EntriesExactly(word, j, n - 1);
      PutSize(SanitizeMembers(word, j, n - 1), NewMember(word, j, n - 1));
      KeysAppear(word, j, n - 1, NewMember(word, j, n - 1).key);
    }
  }
}
