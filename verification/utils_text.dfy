/**
 * The string helpers of the shared utilities: truncation, initials, the
 * phone and e-mail validators, and the status-to-colour lookup.
 */
module TextUtils {
  import opened Wrappers
  import opened Strings

  // ---- truncate ----

  /**
   * Text no longer than the limit comes back unchanged; longer text is cut
   * to the limit (a negative limit cuts everything) and `...` is appended.
   */
  function Truncate(text: string, limit: int): (r: string)
    ensures |text| <= limit ==> r == text
    ensures |text| > limit ==>
      var keep := if limit < 0 then 0 else limit;
      |r| == keep + 3 && r[..keep] == text[..keep] && r[keep..] == "..."
  {
    if |text| <= limit then text
    else text[..if limit < 0 then 0 else limit] + "..."
  }

  /** Truncating an already truncated text to the same limit changes nothing. */
  lemma TruncateIdempotent(text: string, limit: int)
    requires limit >= 0
    ensures Truncate(Truncate(text, limit), limit) == Truncate(text, limit)
  {
    if |text| > limit {
      var t := Truncate(text, limit);
      assert t[..limit] == text[..limit];
    }
  }

  // ---- getInitials ----

  /** A JavaScript value met while building initials: a string, `undefined`, or `NaN`. */
  datatype JsValue = JsString(s: string) | JsUndefined | JsNaN

  /** `s[0]`: the first character, or `undefined` for the empty string. */
  function CharAt0(s: string): JsValue {
    if |s| == 0 then JsUndefined else JsString([s[0]])
  }

  /** JavaScript `+` on two such values: concatenation, `undefined` spelled out, or `NaN`. */
  function JsPlus(a: JsValue, b: JsValue): JsValue {
    match (a, b)
    case (JsString(x), JsString(y)) => JsString(x + y)
    case (JsString(x), JsUndefined) => JsString(x + "undefined")
    case (JsUndefined, JsString(y)) => JsString("undefined" + y)
    case _ => JsNaN
  }

  /**
   * `getInitials` as written: split on single spaces; one piece gives its
   * first two characters, otherwise the first characters of the first and
   * last pieces. An empty piece contributes `undefined`, and two empty end
   * pieces make `NaN`, on which `toUpperCase` throws (modelled as `None`).
   */
  function GetInitialsAsWritten(name: string): (r: Option<string>)
    ensures r.None? <==> |Split(name, ' ')| > 1 && Split(name, ' ')[0] == ""
                         && Split(name, ' ')[|Split(name, ' ')| - 1] == ""
    ensures ' ' !in name ==> r == Some(Upper(FirstTwo(name)))
    ensures var parts := Split(name, ' ');
      |parts| > 1 && parts[0] != "" && parts[|parts| - 1] != "" ==>
        r == Some(Upper([parts[0][0], parts[|parts| - 1][0]]))
  {
    SplitWithoutSeparator(name, ' ');
    InitialsOfPieces(Split(name, ' '))
  }

  /** At most the first two characters: `substring(0, 2)`. */
  function FirstTwo(w: string): (r: string)
    ensures |r| == if |w| < 2 then |w| else 2
    ensures r == w[..|r|]
  {
    w[..if |w| < 2 then |w| else 2]
  }

  /**
   * The initials the code as written takes from the pieces of the split
   * name: the first two characters of a lone piece; otherwise the first
   * character of the first and of the last piece, where an empty piece
   * contributes the text `undefined` and two empty end pieces throw.
   */
  function InitialsOfPieces(parts: seq<string>): (r: Option<string>)
    requires |parts| > 0
    ensures r.None? <==> |parts| > 1 && parts[0] == "" && parts[|parts| - 1] == ""
    ensures |parts| == 1 ==> r == Some(Upper(FirstTwo(parts[0])))
    ensures |parts| > 1 && parts[0] != "" && parts[|parts| - 1] != "" ==>
      r == Some(Upper([parts[0][0], parts[|parts| - 1][0]]))
    ensures |parts| > 1 && parts[0] != "" && parts[|parts| - 1] == "" ==>
      r == Some(Upper([parts[0][0]] + "undefined"))
    ensures |parts| > 1 && parts[0] == "" && parts[|parts| - 1] != "" ==>
      r == Some(Upper("undefined" + [parts[|parts| - 1][0]]))
  {
    if |parts| == 1 then Some(Upper(FirstTwo(parts[0])))
    else
      var first, last := parts[0], parts[|parts| - 1];
      FirstsSum(first, last);
      match JsPlus(CharAt0(first), CharAt0(last))
      case JsString(s) => Some(Upper(s))
      case _ => None
  }

  /**
   * Adding two first characters: both characters, one of them next to the
   * text `undefined`, or `NaN` when both words are empty.
   */
  lemma FirstsSum(a: string, b: string)
    ensures a != "" && b != "" ==> JsPlus(CharAt0(a), CharAt0(b)) == JsString([a[0], b[0]])
    ensures a != "" && b == "" ==> JsPlus(CharAt0(a), CharAt0(b)) == JsString([a[0]] + "undefined")
    ensures a == "" && b != "" ==> JsPlus(CharAt0(a), CharAt0(b)) == JsString("undefined" + [b[0]])
    ensures a == "" && b == "" ==> JsPlus(CharAt0(a), CharAt0(b)) == JsNaN
  {
    if a != "" && b != "" {
      assert [a[0]] + [b[0]] == [a[0], b[0]];
    }
  }

  /** A trailing space puts the word `undefined` into the initials. */
  lemma TrailingSpaceInitials()
    ensures GetInitialsAsWritten("Ada ") == Some("AUNDEFINED")
  {
    SplitTrailingSpace();
    assert JsPlus(CharAt0("Ada"), CharAt0("")) == JsString("Aundefined");
    UpperUndefined();
  }

  lemma SplitTrailingSpace()
    ensures Split("Ada ", ' ') == ["Ada", ""]
  {
    var name := "Ada ";
    assert FirstIndex(name, ' ') == 3;
    assert name[..3] == "Ada";
    assert name[4..] == "";
    assert Split("", ' ') == [""];
  }

  lemma UpperUndefined()
    ensures Upper("Aundefined") == "AUNDEFINED"
  {
    var s := "Aundefined";
    assert |Upper(s)| == 10;
    assert forall i :: 0 <= i < 10 ==> Upper(s)[i] == "AUNDEFINED"[i];
  }

  /** A name of only a space makes `toUpperCase` throw. */
  lemma SingleSpaceInitialsThrow()
    ensures GetInitialsAsWritten(" ").None?
  {
    assert FirstIndex(" ", ' ') == 0;
    assert Split(" ", ' ') == ["", ""];
  }

  /** The initials both versions compute from a list of non-empty words without spaces. */
  function InitialsOfWords(words: seq<string>): (r: string)
    requires |words| > 0
    requires forall i :: 0 <= i < |words| ==> |words[i]| > 0 && ' ' !in words[i]
    ensures |r| <= 2
    ensures |words| >= 2 ==> |r| == 2
    ensures forall i :: 0 <= i < |r| ==> r[i] != ' ' && !IsLower(r[i])
    ensures |words| == 1 ==> r == Upper(FirstTwo(words[0]))
    ensures |words| >= 2 ==> r == Upper([words[0][0], words[|words| - 1][0]])
  {
    if |words| == 1 then
      var w := words[0];
      assert forall k :: 0 <= k < |w| ==> w[k] != ' ';
      Upper(FirstTwo(w))
    else
      var first := words[0];
      var last := words[|words| - 1];
      assert first[0] in first && last[0] in last;
      Upper([first[0], last[0]])
  }

  /**
   * Initials as evidently intended: the same rule applied to the non-empty
   * words only. The result has at most two characters, none a space or a
   * lower-case ASCII letter.
   */
  function GetInitials(name: string): (r: string)
    ensures |r| <= 2
    ensures forall i :: 0 <= i < |r| ==> r[i] != ' ' && !IsLower(r[i])
    ensures |Words(name)| >= 2 ==> |r| == 2
    ensures |Words(name)| == 0 ==> r == ""
    ensures |Words(name)| == 1 ==> r == Upper(FirstTwo(Words(name)[0]))
    ensures |Words(name)| >= 2 ==> r == Upper([Words(name)[0][0], Words(name)[|Words(name)| - 1][0]])
  {
    var words := Words(name);
    if |words| == 0 then "" else InitialsOfWords(words)
  }

  /** The non-empty words of a name split on single spaces. */
  function Words(name: string): (r: seq<string>)
    ensures forall i :: 0 <= i < |r| ==> |r[i]| > 0 && ' ' !in r[i]
  {
    var words := DropEmpty(Split(name, ' '));
    assert forall i :: 0 <= i < |words| ==> words[i] in Split(name, ' ');
    words
  }

  /** When no word is empty, the code as written already gives the intended initials. */
  lemma InitialsAgreeOnCleanNames(name: string)
    requires name == "" || forall i :: 0 <= i < |Split(name, ' ')| ==> |Split(name, ' ')[i]| > 0
    ensures GetInitialsAsWritten(name) == Some(GetInitials(name))
  {
    if name == "" {
      assert Split(name, ' ') == [""];
    } else {
      var parts := Split(name, ' ');
      assert forall i :: 0 <= i < |Split(name, ' ')| ==> |Split(name, ' ')[i]| > 0;
      DropEmptyKeepsNonEmpty(parts);
      AsWrittenOnCleanParts(name);
      IntendedOnCleanParts(name);
    }
  }

  lemma AsWrittenOnCleanParts(name: string)
    requires forall i :: 0 <= i < |Split(name, ' ')| ==> |Split(name, ' ')[i]| > 0
    ensures forall i :: 0 <= i < |Split(name, ' ')| ==> ' ' !in Split(name, ' ')[i]
    ensures GetInitialsAsWritten(name) == Some(InitialsOfWords(Split(name, ' ')))
  {
    CleanPiecesInitials(Split(name, ' '));
  }

  lemma CleanPiecesInitials(parts: seq<string>)
    requires |parts| > 0
    requires forall i :: 0 <= i < |parts| ==> |parts[i]| > 0 && ' ' !in parts[i]
    ensures InitialsOfPieces(parts) == Some(InitialsOfWords(parts))
  {
    if |parts| > 1 {
      var first := parts[0];
      var last := parts[|parts| - 1];
      assert JsPlus(CharAt0(first), CharAt0(last)) == JsString([first[0], last[0]]);
    }
  }

  lemma IntendedOnCleanParts(name: string)
    requires Words(name) == Split(name, ' ')
    requires forall i :: 0 <= i < |Split(name, ' ')| ==> |Split(name, ' ')[i]| > 0
    ensures GetInitials(name) == InitialsOfWords(Split(name, ' '))
  {
  }

  // ---- isValidPhone ----

  /**
   * The phone number with every `\s` character removed. A single character
   * is dropped exactly when it is white space; with `StripAppend` this makes
   * the result the non-white-space characters in their original order.
   */
  function StripWhiteSpace(s: string): (r: string)
    ensures forall i :: 0 <= i < |r| ==> !IsWhiteSpace(r[i])
    ensures |r| <= |s|
    ensures |s| == 0 ==> r == ""
    ensures |s| == 1 ==> r == (if IsWhiteSpace(s[0]) then "" else s)
    decreases |s|
  {
    if |s| == 0 then ""
    else StripWhiteSpace(s[..|s| - 1]) + (if IsWhiteSpace(s[|s| - 1]) then "" else [s[|s| - 1]])
  }

  /** `/^\d{10,15}$/`: ten to fifteen ASCII digits and nothing else. */
  predicate PhonePattern(d: string) {
    10 <= |d| <= 15 && AllDigits(d)
  }

  predicate AllDigits(d: string) {
    forall i :: 0 <= i < |d| ==> IsDigit(d[i])
  }

  /**
   * Single pass over the number: white space is skipped, digits are counted,
   * anything else rejects. Valid means the stripped number matches the
   * pattern.
   */
  method IsValidPhone(phone: string) returns (ok: bool)
    ensures ok <==> PhonePattern(StripWhiteSpace(phone))
  {
    var digits := 0;
    var onlyDigits := true;
    var i := 0;
    while i < |phone|
      invariant 0 <= i <= |phone|
      invariant digits == |StripWhiteSpace(phone[..i])|
      invariant onlyDigits <==> AllDigits(StripWhiteSpace(phone[..i]))
    {
      var c := phone[i];
      ghost var before := StripWhiteSpace(phone[..i]);
      assert phone[..i + 1][..i] == phone[..i];
      ghost var after := StripWhiteSpace(phone[..i + 1]);
      assert after == before + (if IsWhiteSpace(c) then "" else [c]);
      if !IsWhiteSpace(c) {
        assert AllDigits(after) <==> AllDigits(before) && IsDigit(c) by {
          assert after[digits] == c;
          assert forall k :: 0 <= k < digits ==> after[k] == before[k];
        }
        if !IsDigit(c) {
          onlyDigits := false;
        }
        digits := digits + 1;
      } else {
        assert after == before;
      }
      i := i + 1;
    }
    assert phone[..i] == phone;
    ok := onlyDigits && 10 <= digits <= 15;
  }

  /** White space is ignored wherever it appears. */
  lemma {:induction false} StripAppend(a: string, b: string)
    ensures StripWhiteSpace(a + b) == StripWhiteSpace(a) + StripWhiteSpace(b)
    decreases |b|
  {
    if |b| == 0 {
      assert a + b == a;
    } else {
      var b' := b[..|b| - 1];
      assert (a + b)[..|a + b| - 1] == a + b';
      assert (a + b)[|a + b| - 1] == b[|b| - 1];
      StripAppend(a, b');
    }
  }

  // ---- isValidEmail ----

  /** A character `[^\s@]` accepts. */
  predicate Plain(ch: char) { !IsWhiteSpace(ch) && ch != '@' }

  /**
   * `/^[^\s@]+@[^\s@]+\.[^\s@]+$/` by positions: an `@` at `at`, a `.` at
   * `dot`, at least one character before the `@`, between them and after the
   * dot, and every other character plain.
   */
  predicate EmailPattern(s: string) {
    exists at, dot :: 0 < at && at + 1 < dot < |s| - 1 && s[at] == '@' && s[dot] == '.'
      && forall k :: 0 <= k < |s| && k != at ==> Plain(s[k])
  }

  predicate AllPlain(s: string) {
    forall k :: 0 <= k < |s| ==> Plain(s[k])
  }

  /**
   * Checks the address: one `@` with plain text on both sides, and a dot in
   * the domain that is neither its first nor its last character.
   */
  function IsValidEmail(email: string): (r: bool)
    ensures r <==> EmailPattern(email)
  {
    if '@' !in email then
      assert !EmailPattern(email);
      false
    else
      var at := FirstIndex(email, '@');
      var local := email[..at];
      var domain := email[at + 1..];
      var ok := at > 0 && AllPlain(local) && AllPlain(domain) && |domain| >= 3 && '.' in domain[1..|domain| - 1];
      EmailCheckIsPattern(email, at);
      ok
  }

  lemma EmailCheckIsPattern(email: string, at: nat)
    requires at < |email| && email[at] == '@' && '@' !in email[..at]
    ensures var local := email[..at];
            var domain := email[at + 1..];
            (at > 0 && AllPlain(local) && AllPlain(domain) && |domain| >= 3 && '.' in domain[1..|domain| - 1])
            <==> EmailPattern(email)
  {
    var local := email[..at];
    var domain := email[at + 1..];
    if at > 0 && AllPlain(local) && AllPlain(domain) && |domain| >= 3 && '.' in domain[1..|domain| - 1] {
      var inner := domain[1..|domain| - 1];
      var j :| 0 <= j < |inner| && inner[j] == '.';
      var dot := at + 2 + j;
      assert email[dot] == '.';
      forall k | 0 <= k < |email| && k != at
        ensures Plain(email[k])
      {
        if k < at {
          assert email[k] == local[k];
        } else {
          assert email[k] == domain[k - at - 1];
        }
      }
    }
    if EmailPattern(email) {
      var a, dot :| 0 < a && a + 1 < dot < |email| - 1 && email[a] == '@' && email[dot] == '.'
        && forall k :: 0 <= k < |email| && k != a ==> Plain(email[k]);
      assert a == at;
      assert domain[dot - at - 1] == '.';
      assert domain[1..|domain| - 1][dot - at - 2] == '.';
      assert forall k :: 0 <= k < |local| ==> local[k] == email[k];
      assert forall k :: 0 <= k < |domain| ==> domain[k] == email[at + 1 + k];
    }
  }

  /** A valid address has exactly one `@` and no white space. */
  lemma ValidEmailShape(email: string, k: nat)
    requires IsValidEmail(email) && k < |email|
    ensures !IsWhiteSpace(email[k])
    ensures email[k] == '@' ==> k == FirstIndex(email, '@')
  {
  }

  // ---- getStatusColor ----

  const DefaultColor := "bg-gray-100 text-gray-800"

  const StatusColors: map<string, string> := map[
    "active" := "bg-green-100 text-green-800",
    "inactive" := "bg-gray-100 text-gray-800",
    "suspended" := "bg-red-100 text-red-800",
    "pending" := "bg-yellow-100 text-yellow-800",
    "approved" := "bg-green-100 text-green-800",
    "rejected" := "bg-red-100 text-red-800",
    "cancelled" := "bg-gray-100 text-gray-800",
    "present" := "bg-green-100 text-green-800",
    "absent" := "bg-red-100 text-red-800",
    "late" := "bg-orange-100 text-orange-800",
    "half_day" := "bg-yellow-100 text-yellow-800",
    "work_from_home" := "bg-blue-100 text-blue-800",
    "draft" := "bg-gray-100 text-gray-800",
    "generated" := "bg-blue-100 text-blue-800",
    "paid" := "bg-green-100 text-green-800"
  ]

  /** The six class strings a status can be given. */
  const Palette: set<string> := {
    "bg-green-100 text-green-800", "bg-gray-100 text-gray-800", "bg-red-100 text-red-800",
    "bg-yellow-100 text-yellow-800", "bg-orange-100 text-orange-800", "bg-blue-100 text-blue-800"
  }

  /**
   * Inherited members of a plain object whose names are already lower case,
   * so a lower-cased status can reach them.
   */
  const LowerCaseInheritedMembers: set<string> := {"constructor", "__proto__"}

  /** What the lookup can produce: a class string, or an inherited object member. */
  datatype ColorLookup = ClassName(classes: string) | InheritedMember(member: string)

  /**
   * `getStatusColor` as written: the lower-cased status indexes a plain
   * object literal, so a status that lower-cases to an inherited member name
   * yields that member (a function or an object) instead of a class string.
   */
  function GetStatusColorAsWritten(status: string): (r: ColorLookup)
    ensures r.InheritedMember? <==> Lower(status) !in StatusColors && Lower(status) in LowerCaseInheritedMembers
  {
    var key := Lower(status);
    if key in StatusColors then ClassName(StatusColors[key])
    else if key in LowerCaseInheritedMembers then InheritedMember(key)
    else ClassName(DefaultColor)
  }

  lemma ConstructorStatusIsNotAClass()
    ensures GetStatusColorAsWritten("Constructor") == InheritedMember("constructor")
  {
    LowerConstructor();
    ConstructorIsNotAStatus();
  }

  lemma ConstructorIsNotAStatus()
    ensures "constructor" !in StatusColors
  {
    var c := "constructor";
    assert |c| == 11;
    forall k | k in StatusColors
      ensures k != c
    {
      assert |k| != 11;
    }
  }

  lemma LowerConstructor()
    ensures Lower("Constructor") == "constructor"
  {
    var s := "Constructor";
    assert forall i :: 0 <= i < 11 ==> Lower(s)[i] == "constructor"[i];
  }

  /**
   * The colour classes for a status, looked up case-insensitively among the
   * table's own entries; anything else gets the grey default.
   */
  function GetStatusColor(status: string): (r: string)
    ensures r in Palette
    ensures Lower(status) in StatusColors ==> r == StatusColors[Lower(status)]
    ensures Lower(status) !in StatusColors ==> r == DefaultColor
  {
    var key := Lower(status);
    if key in StatusColors then StatusColors[key] else DefaultColor
  }

  /** The lookup ignores letter case. */
  lemma StatusColorIgnoresCase(status: string)
    ensures GetStatusColor(status) == GetStatusColor(Lower(status))
  {
    LowerIdempotent(status);
  }

  /** Away from the two inherited names, the code as written gives the intended class string. */
  lemma StatusColorAgrees(status: string)
    requires Lower(status) !in LowerCaseInheritedMembers
    ensures GetStatusColorAsWritten(status) == ClassName(GetStatusColor(status))
  {
  }
}
