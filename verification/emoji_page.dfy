/** The student's emotion page: reading the access code back from the cookie
    string and deciding what the submit button does. */
module EmojiPage {
  import opened Basics
  import opened Text
  import opened Emotions

  /** `c` without its leading U+0020 spaces; no other white space is removed. */
  function StripLeadingSpaces(c: string): (r: string)
    ensures |r| <= |c| && r == c[|c| - |r|..]
    ensures forall i :: 0 <= i < |c| - |r| ==> c[i] == ' '
    ensures |r| == 0 || r[0] != ' '
  {
    if |c| > 0 && c[0] == ' ' then StripLeadingSpaces(c[1..]) else c
  }

  /** The cookie entry, once its leading spaces are gone, starts with `name=`. */
  predicate EntryMatches(entry: string, name: string)
  {
    IsPrefix(name + "=", StripLeadingSpaces(entry))
  }

  /** What follows `name=` in a matching entry. */
  function EntryValue(entry: string, name: string): string
    requires EntryMatches(entry, name)
  {
    StripLeadingSpaces(entry)[|name| + 1..]
  }

  /** Entry `i` matches and no earlier entry does. */
  predicate IsFirstMatch(entries: seq<string>, name: string, i: int)
  {
    && 0 <= i < |entries| && EntryMatches(entries[i], name)
    && forall j :: 0 <= j < i ==> !EntryMatches(entries[j], name)
  }

  /** The value of the first entry of `entries` that matches `name`, or "". */
  function FirstValue(entries: seq<string>, name: string): (v: string)
    ensures (forall i :: 0 <= i < |entries| ==> !EntryMatches(entries[i], name)) ==> v == ""
    ensures forall i :: IsFirstMatch(entries, name, i) ==> v == EntryValue(entries[i], name)
  {
    if |entries| == 0 then ""
    else if EntryMatches(entries[0], name) then EntryValue(entries[0], name)
    else
      var v := FirstValue(entries[1..], name);
      FirstMatchOfTail(entries, name);
      v
  }

  lemma FirstMatchOfTail(entries: seq<string>, name: string)
    requires |entries| > 0 && !EntryMatches(entries[0], name)
    ensures forall i :: IsFirstMatch(entries, name, i) ==> i > 0 && IsFirstMatch(entries[1..], name, i - 1)
    ensures (forall i :: 0 <= i < |entries[1..]| ==> !EntryMatches(entries[1..][i], name))
            ==> (forall i :: 0 <= i < |entries| ==> !EntryMatches(entries[i], name))
  {
    forall i | IsFirstMatch(entries, name, i)
      ensures i > 0 && IsFirstMatch(entries[1..], name, i - 1)
    {
      forall j | 0 <= j < i - 1
        ensures !EntryMatches(entries[1..][j], name)
      {
        assert entries[1..][j] == entries[j + 1];
      }
    }
    if forall i :: 0 <= i < |entries[1..]| ==> !EntryMatches(entries[1..][i], name) {
      forall i | 0 <= i < |entries|
        ensures !EntryMatches(entries[i], name)
      {
        if i > 0 {
          assert entries[i] == entries[1..][i - 1];
        }
      }
    }
  }

  /** `getCookie(name)` on the (already decoded) `document.cookie` text. */
  function CookieValue(cookie: string, name: string): string
  {
    FirstValue(Split(cookie, ';'), name)
  }

  /** The loop of `getCookie`, entry by entry. */
  method GetCookie(cookie: string, name: string) returns (value: string)
    ensures value == CookieValue(cookie, name)
  {
    var key := name + "=";
    var ca := Split(cookie, ';');
    var i := 0;
    while i < |ca|
      invariant 0 <= i <= |ca|
      invariant FirstValue(ca[i..], name) == FirstValue(ca, name)
    {
      var c := DropSpaces(ca[i]);
      assert ca[i..][0] == ca[i] && ca[i..][1..] == ca[i + 1..];
      if IsPrefix(key, c) {
        return c[|key|..];
      }
      i := i + 1;
    }
    return "";
  }

  /** The inner loop of `getCookie`, which drops the spaces an entry starts with. */
  method DropSpaces(entry: string) returns (c: string)
    ensures c == StripLeadingSpaces(entry)
  {
    c := entry;
    while |c| > 0 && c[0] == ' '
      invariant StripLeadingSpaces(c) == StripLeadingSpaces(entry)
    {
      c := c[1..];
    }
  }

  /** The `name=` prefix includes the `=`: a longer cookie name never matches. */
  lemma LongerNameDoesNotMatch(entry: string, name: string)
    requires |StripLeadingSpaces(entry)| > |name|
    requires StripLeadingSpaces(entry)[|name|] != '='
    ensures !EntryMatches(entry, name)
  {
    var s := StripLeadingSpaces(entry);
    if |name + "="| <= |s| {
      assert s[..|name + "="|][|name|] == s[|name|];
    }
  }

  /** Looking up `ab` in `abc=1` finds nothing. */
  lemma PrefixOfAnotherName()
    ensures CookieValue("abc=1", "ab") == ""
  {
    SplitNoSeparator("abc=1", ';');
    LongerNameDoesNotMatch("abc=1", "ab");
  }

  /** Only spaces are stripped: an entry indented by a tab does not match. */
  lemma TabIsNotStripped()
    ensures CookieValue("\tab=1", "ab") == ""
  {
    var e := "\tab=1";
    SplitNoSeparator(e, ';');
    assert e[0] == '\t';
    assert StripLeadingSpaces(e) == e;
    assert e[..3][0] != "ab="[0];
  }

  /** The first matching entry wins, after its leading spaces are dropped. */
  lemma FirstMatchWins()
    ensures CookieValue("a=1; a=2", "a") == "1"
  {
    assert "a=1; a=2" == Join(["a=1", " a=2"], ';');
    SplitJoin(["a=1", " a=2"], ';');
    assert EntryMatches("a=1", "a");
  }

  const CodeCookie := "codigo_avaliacao"

  /** What the submit button does. */
  datatype Action =
    | Ignore                                           // no emoji selected
    | AskForCode                                       // the alert about the missing code
    | Register(codigo: string, emocao: Option<int>)    // the registration request

  /** `handleSubmit` of the emoji page: `selected` is the chosen emoji id, if any. */
  function SubmitEmotion(selected: Option<string>, cookie: string): (a: Action)
    ensures a.Ignore? <==> selected.None? || selected.value == ""
    ensures a.AskForCode? <==> selected.Some? && selected.value != "" && CookieValue(cookie, CodeCookie) == ""
    ensures a.Register? ==> a.codigo == CookieValue(cookie, CodeCookie) && a.codigo != ""
    ensures a.Register? ==> a.emocao == ParseInt(selected.value)
  {
    if selected.None? || selected.value == "" then Ignore
    else
      var codigo := CookieValue(cookie, CodeCookie);
      if codigo == "" then AskForCode else Register(codigo, ParseInt(selected.value))
  }

  /** Every emoji the page offers is registered with a code the dashboard
      recognises, under the same label. */
  lemma RegisteredCodeIsKnown(i: int, cookie: string)
    requires 0 <= i < |EmojiTable|
    requires CookieValue(cookie, CodeCookie) != ""
    ensures
      var a := SubmitEmotion(Some(EmojiTable[i].id), cookie);
      && a.Register? && a.emocao.Some?
      && EmotionLabel(a.emocao.value) == Some(EmojiTable[i].emotion)
  {
    EmojiTableMatchesLabels();
    var e := EmojiTable[i];
    assert |e.id| == 1 && ParseInt(e.id) == Some(i + 1) && EmotionLabel(i + 1) == Some(e.emotion);
    SubmitRegisters(e.id, cookie);
  }

  lemma SubmitRegisters(selected: string, cookie: string)
    requires |selected| > 0 && CookieValue(cookie, CodeCookie) != ""
    ensures SubmitEmotion(Some(selected), cookie) == Register(CookieValue(cookie, CodeCookie), ParseInt(selected))
  {
  }
}
