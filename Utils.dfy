/** The helpers of vald/utils.py: the client-register lookup behind e-mail
    validation, the spam filter of the contact form, and the request
    templates with their `$name` placeholders. A register file is given as
    its lines (`None` when it does not exist); a template file is read
    through a parameter that maps a path to the file's text. */
module Utils {
  import opened Wrappers
  import opened Text
  import opened Params

  // ---------------------------------------------------------------------
  // Client register

  /** A stripped register line of the form "#$ <name>": the header that
      names the client whose addresses follow. */
  predicate IsHeader(t: string)
  {
    |t| >= 3 && t[0] == '#' && t[1] == '$' && IsSpace(t[2])
  }

  function HeaderName(t: string): string
    requires IsHeader(t)
  {
    Strip(t[2..])
  }

  /** The header of a stripped line always names someone. */
  lemma HeaderNameNonEmpty(t: string)
    requires IsHeader(t) && t == Strip(t)
    ensures HeaderName(t) != []
  {
    assert t[2..][|t| - 3] == t[|t| - 1];
  }

  /** A stripped register line that lists the (already lower-cased)
      address: not a comment, not blank, and equal to it once lower-cased. */
  predicate IsEntry(t: string, email: string)
  {
    t != [] && t[0] != '#' && Lower(t) == email
  }

  /** The name `_check_register_file` holds after the first `i` lines: each
      header replaces it. */
  function NameAfter(ts: seq<string>, i: nat): Option<string>
    requires i <= |ts|
  {
    if i == 0 then None
    else if IsHeader(ts[i - 1]) then Some(HeaderName(ts[i - 1]))
    else NameAfter(ts, i - 1)
  }

  /** The index of the last header among the first `i` lines, or -1. */
  function LastHeader(ts: seq<string>, i: nat): (h: int)
    requires i <= |ts|
    ensures -1 <= h < i
    ensures h >= 0 ==> IsHeader(ts[h])
    ensures forall m :: h < m < i ==> !IsHeader(ts[m])
  {
    if i == 0 then -1 else if IsHeader(ts[i - 1]) then i - 1 else LastHeader(ts, i - 1)
  }

  /** The remembered name is that of the nearest preceding header, and
      there is none when no header precedes. */
  lemma {:induction false} NameAfterIsNearestHeader(ts: seq<string>, i: nat)
    requires i <= |ts|
    ensures NameAfter(ts, i) == if LastHeader(ts, i) < 0 then None else Some(HeaderName(ts[LastHeader(ts, i)]))
  {
    if i > 0 {
      NameAfterIsNearestHeader(ts, i - 1);
      if IsHeader(ts[i - 1]) {
        assert LastHeader(ts, i) == i - 1;
      } else {
        assert LastHeader(ts, i) == LastHeader(ts, i - 1);
        assert NameAfter(ts, i) == NameAfter(ts, i - 1);
      }
    }
  }

  /** The index of the first line that lists the address, or `|ts|`. */
  function FirstEntry(ts: seq<string>, email: string): (i: nat)
    ensures i <= |ts|
    ensures forall j :: 0 <= j < i ==> !IsEntry(ts[j], email)
    ensures i < |ts| ==> IsEntry(ts[i], email)
  {
    if ts == [] then 0 else if IsEntry(ts[0], email) then 0 else 1 + FirstEntry(ts[1..], email)
  }

  /** What `_check_register_file` returns for the stripped lines of a register. */
  function LookupSpec(ts: seq<string>, email: string): Option<string>
  {
    if FirstEntry(ts, email) < |ts| then NameAfter(ts, FirstEntry(ts, email)) else None
  }

  /** One line of `_check_register_file`: a header replaces the remembered
      name, a line that lists the address ends the walk. */
  method RegisterStep(t: string, email: string, currentName: Option<string>, ghost ts: seq<string>, ghost i: nat)
    returns (found: bool, name: Option<string>)
    requires i < |ts| && ts[i] == t && currentName == NameAfter(ts, i)
    ensures found <==> IsEntry(t, email)
    ensures found ==> name == currentName
    ensures !found ==> name == NameAfter(ts, i + 1)
  {
    if IsHeader(t) {
      return false, Some(HeaderName(t));
    } else if t != [] && t[0] != '#' && Lower(t) == email {
      return true, currentName;
    }
    return false, currentName;
  }

  /** `_check_register_file`: walks the register remembering the latest
      header, and returns it at the first line that lists the address. */
  method CheckRegisterFile(file: Option<seq<string>>, email: string) returns (r: Option<string>)
    ensures file.None? ==> r.None?
    ensures file.Some? ==> r == LookupSpec(StripAll(file.value), email)
  {
    if file.None? {
      return None;
    }
    var lines := file.value;
    ghost var ts := StripAll(lines);
    var currentName: Option<string> := None;
    var i := 0;
    while i < |lines|
      invariant 0 <= i <= |lines|
      invariant currentName == NameAfter(ts, i)
      invariant FirstEntry(ts, email) >= i
    {
      var found;
      found, currentName := RegisterStep(Strip(lines[i]), email, currentName, ts, i);
      if found {
        assert FirstEntry(ts, email) == i;
        return currentName;
      }
      assert FirstEntry(ts, email) != i;
      i := i + 1;
    }
    return None;
  }

  /** A register lookup finds a name exactly when some line lists the
      address and a header precedes the first such line; the name is the
      nearest such header's, and it is never empty. */
  lemma {:induction false} LookupFindsNearestHeader(lines: seq<string>, email: string)
    ensures var ts := StripAll(lines);
            var i := FirstEntry(ts, email);
            LookupSpec(ts, email).Some? <==> i < |ts| && LastHeader(ts, i) >= 0
    ensures var ts := StripAll(lines);
            var i := FirstEntry(ts, email);
            LookupSpec(ts, email).Some? ==>
              LookupSpec(ts, email).value == HeaderName(ts[LastHeader(ts, i)]) && LookupSpec(ts, email).value != []
  {
    var ts := StripAll(lines);
    var i := FirstEntry(ts, email);
    if i < |ts| {
      NameAfterIsNearestHeader(ts, i);
      var h := LastHeader(ts, i);
      if h >= 0 {
        assert ts[h] == Strip(lines[h]);
        StripIdempotent(lines[h]);
        HeaderNameNonEmpty(ts[h]);
      }
    }
  }

  /** `validate_user_email`: the address, lower-cased and stripped, is valid
      exactly when the register names a user for it, and that name comes
      with it. */
  method ValidateUserEmail(email: string, register: Option<seq<string>>) returns (valid: bool, name: Option<string>)
    ensures valid <==> register.Some? && LookupSpec(StripAll(register.value), Strip(Lower(email))).Some?
    ensures valid ==> name == LookupSpec(StripAll(register.value), Strip(Lower(email)))
    ensures !valid ==> name.None?
  {
    var e := Strip(Lower(email));
    var result := CheckRegisterFile(register, e);
    if register.Some? {
      LookupFindsNearestHeader(register.value, e);
    }
    if result.Some? && result.value != [] {
      return true, result;
    }
    return false, None;
  }

  // ---------------------------------------------------------------------
  // Spam filter

  const SuspiciousPatterns: seq<string> := ["ahref=", "[url", "[/url", "http://", "https://"]

  /** `spam_check`: a message is acceptable when it has at least ten
      characters and, with its spaces removed and lower-cased, contains
      none of the link patterns. */
  function SpamCheck(message: string): (ok: bool)
    ensures ok <==> (|message| >= 10
                     && forall j :: 0 <= j < |SuspiciousPatterns| ==> !Contains(RemoveChar(Lower(message), ' '), SuspiciousPatterns[j]))
  {
    LowerRemoveSpace(message);
    |message| >= 10
    && forall j :: 0 <= j < |SuspiciousPatterns| ==> !Contains(Lower(RemoveChar(message, ' ')), SuspiciousPatterns[j])
  }

  /** Lower-casing and removing spaces commute. */
  lemma {:induction false} LowerRemoveSpace(s: string)
    ensures Lower(RemoveChar(s, ' ')) == RemoveChar(Lower(s), ' ')
    decreases |s|
  {
    if s != [] {
      LowerRemoveSpace(s[1..]);
      assert Lower(s)[1..] == Lower(s[1..]);
      assert Lower(RemoveChar(s, ' ')) == Lower((if s[0] == ' ' then [] else [s[0]]) + RemoveChar(s[1..], ' '));
    }
  }

  lemma LowerAppend(a: string, b: string)
    ensures Lower(a + b) == Lower(a) + Lower(b)
  {
  }

  /** A link pattern anywhere in the message, in any letter case and not
      broken by spaces, marks it as spam. */
  lemma {:induction false} LinksAreSpam(message: string, j: nat)
    requires j < |SuspiciousPatterns| && Contains(Lower(message), SuspiciousPatterns[j])
    ensures !SpamCheck(message)
  {
    PatternsHaveNoSpace(j);
    RemoveSpaceKeepsContained(Lower(message), SuspiciousPatterns[j]);
    LowerRemoveSpace(message);
  }

  lemma PatternsHaveNoSpace(j: nat)
    requires j < |SuspiciousPatterns|
    ensures ' ' !in SuspiciousPatterns[j]
  {
  }

  /** Removing spaces keeps every contained text that has no space. */
  lemma {:induction false} RemoveSpaceKeepsContained(l: string, p: string)
    requires Contains(l, p) && ' ' !in p
    ensures Contains(RemoveChar(l, ' '), p)
  {
    var i := ContainsOccurrence(l, p);
    assert l == l[..i] + p + l[i + |p|..];
    RemoveCharAppend(l[..i] + p, l[i + |p|..], ' ');
    RemoveCharAppend(l[..i], p, ' ');
    RemoveCharAbsent(p, ' ');
    var r := RemoveChar(l, ' ');
    assert r == RemoveChar(l[..i], ' ') + p + RemoveChar(l[i + |p|..], ' ');
    ContainsAt(r, p, |RemoveChar(l[..i], ' ')|);
  }

  /** Every character of a contained string occurs in the containing one. */
  lemma {:induction false} ContainedChars(s: string, sub: string, k: nat)
    requires Contains(s, sub) && k < |sub|
    ensures sub[k] in s
  {
    var i := ContainsOccurrence(s, sub);
    assert s[i + k] == sub[k];
  }

  /** A message of ten or more characters without `=`, `[` and `:` passes:
      each pattern needs one of them. */
  lemma MessagesWithoutMarkupPass(message: string)
    requires |message| >= 10 && '=' !in message && '[' !in message && ':' !in message
    ensures SpamCheck(message)
  {
    var r := Lower(RemoveChar(message, ' '));
    assert '=' !in r && '[' !in r && ':' !in r by {
      forall i | 0 <= i < |r| ensures r[i] != '=' && r[i] != '[' && r[i] != ':' {
        assert RemoveChar(message, ' ')[i] in message;
      }
    }
    forall j | 0 <= j < |SuspiciousPatterns| ensures !Contains(r, SuspiciousPatterns[j]) {
      var p := SuspiciousPatterns[j];
      if Contains(r, p) {
        var k: nat := if j == 0 || j == 4 then 5 else if j <= 2 then 0 else 4;
        assert p[k] == '=' || p[k] == '[' || p[k] == ':';
        ContainedChars(r, p, k);
      }
    }
  }

  // ---------------------------------------------------------------------
  // Request templates

  /** The template file of a request type, if it has one. */
  function TemplateFileName(reqtype: string): Option<string>
  {
    if reqtype == "contact" then Some("contact-req.txt")
    else if reqtype == "extractall" then Some("extractall-req.txt")
    else if reqtype == "extractelement" then Some("extractelement-req.txt")
    else if reqtype == "extractstellar" then Some("extractstellar-req.txt")
    else if reqtype == "showline" then Some("showline-req.txt")
    else None
  }

  const RequestTypes: seq<string> := ["contact", "extractall", "extractelement", "extractstellar", "showline"]

  /** `get_request_template_path`: `<base>/requests/<type>-req.txt` for each
      of the five request types, and `None` for any other type. */
  function TemplatePath(baseDir: string, reqtype: string): (r: Option<string>)
    ensures r.Some? <==> reqtype in RequestTypes
    ensures r.Some? ==> r.value == baseDir + "/requests/" + reqtype + "-req.txt"
  {
    TemplateFileNames(reqtype);
    match TemplateFileName(reqtype)
    case None => None
    case Some(name) => Some(baseDir + "/requests/" + name)
  }

  /** The five request types are the ones with a template file. */
  lemma TemplateFileNames(reqtype: string)
    ensures TemplateFileName(reqtype).Some? <==> reqtype in RequestTypes
    ensures TemplateFileName(reqtype).Some? ==> TemplateFileName(reqtype).value == reqtype + "-req.txt"
  {
    if reqtype !in RequestTypes {
      assert reqtype != "contact" && reqtype != "extractall" && reqtype != "extractelement";
      assert reqtype != "extractstellar" && reqtype != "showline";
    } else {
      TemplateFileSpelled(reqtype);
    }
  }

  /** Each request type's template file is `<type>-req.txt`. */
  lemma TemplateFileSpelled(reqtype: string)
    requires reqtype in RequestTypes
    ensures TemplateFileName(reqtype) == Some(reqtype + "-req.txt")
  {
    if reqtype == "contact" {
      assert "contact" + "-req.txt" == "contact-req.txt";
    } else if reqtype == "extractall" {
      assert "extractall" + "-req.txt" == "extractall-req.txt";
    } else if reqtype == "extractelement" {
      assert "extractelement" + "-req.txt" == "extractelement-req.txt";
    } else if reqtype == "extractstellar" {
      assert "extractstellar" + "-req.txt" == "extractstellar-req.txt";
    } else {
      assert "showline" + "-req.txt" == "showline-req.txt";
    }
  }

  /** A context key: a non-empty run of word characters, so that `$key`
      inside a pattern is matched literally. */
  predicate IsIdentifier(k: string)
  {
    k != [] && forall j :: 0 <= j < |k| ==> IsWordChar(k[j])
  }

  /** `re.sub(r'\$key\b', repl, s)`: every `$key` not followed by a word
      character becomes `repl`, scanning left to right. */
  function SubstituteKey(s: string, key: string, repl: string): (r: string)
    ensures '$' !in s ==> r == s
    decreases |s|
  {
    if s == [] then []
    else if StartsWith(s, "$" + key) && (|s| == |key| + 1 || !IsWordChar(s[|key| + 1])) then
      assert s[0] == ("$" + key)[0];
      repl + SubstituteKey(s[|key| + 1..], key, repl)
    else [s[0]] + SubstituteKey(s[1..], key, repl)
  }

  /** `re.sub(r'\$key,?', '', s)`: every `$key` disappears, together with one
      comma right after it. */
  function DropKey(s: string, key: string): (r: string)
    ensures |r| <= |s| && ('$' !in s ==> r == s)
    decreases |s|
  {
    if s == [] then []
    else if StartsWith(s, "$" + key) then
      var n := |key| + 1;
      assert s[0] == ("$" + key)[0];
      DropKey(s[if n < |s| && s[n] == ',' then n + 1 else n..], key)
    else [s[0]] + DropKey(s[1..], key)
  }

  /** The length of the run of word characters `s` starts with. */
  function WordRun(s: string): (n: nat)
    ensures n <= |s| && (forall j :: 0 <= j < n ==> IsWordChar(s[j])) && (n < |s| ==> !IsWordChar(s[n]))
  {
    if s != [] && IsWordChar(s[0]) then 1 + WordRun(s[1..]) else 0
  }

  /** `re.sub(r'\$\w+', '', s)`: every `$` with the word after it disappears. */
  function StripVariables(s: string): (r: string)
    ensures |r| <= |s| && ('$' !in s ==> r == s)
    decreases |s|
  {
    if s == [] then []
    else if |s| >= 2 && s[0] == '$' && IsWordChar(s[1]) then StripVariables(s[1 + WordRun(s[1..])..])
    else [s[0]] + StripVariables(s[1..])
  }

  /** No `$` is followed by a word character. */
  predicate NoVariables(r: string)
  {
    forall i :: 0 <= i < |r| - 1 && r[i] == '$' ==> !IsWordChar(r[i + 1])
  }

  /** What is left after a variable starts with no word character, so a
      text that starts with none keeps starting with none. */
  lemma {:induction false} StripVariablesHead(s: string)
    requires s == [] || !IsWordChar(s[0])
    ensures StripVariables(s) == [] || !IsWordChar(StripVariables(s)[0])
    decreases |s|
  {
    if |s| >= 2 && s[0] == '$' && IsWordChar(s[1]) {
      StripVariablesHead(s[1 + WordRun(s[1..])..]);
    }
  }

  /** After the final clean-up no placeholder is left in the text. */
  lemma {:induction false} StripVariablesLeavesNone(s: string)
    ensures NoVariables(StripVariables(s))
    decreases |s|
  {
    if s == [] {
    } else if |s| >= 2 && s[0] == '$' && IsWordChar(s[1]) {
      StripVariablesLeavesNone(s[1 + WordRun(s[1..])..]);
    } else {
      var rest := StripVariables(s[1..]);
      StripVariablesLeavesNone(s[1..]);
      var r := [s[0]] + rest;
      if s[0] == '$' && |s| >= 2 {
        StripVariablesHead(s[1..]);
      }
      forall i | 0 <= i < |r| - 1 && r[i] == '$' ensures !IsWordChar(r[i + 1]) {
        if i > 0 {
          assert r[i] == rest[i - 1] && r[i + 1] == rest[i];
        }
      }
    }
  }

  /** A falsy value removes its placeholder and one comma after it. */
  lemma DropKeyTakesComma(key: string, rest: string)
    ensures DropKey("$" + key + "," + rest, key) == DropKey(rest, key)
    ensures (rest == [] || rest[0] != ',') ==> DropKey("$" + key + rest, key) == DropKey(rest, key)
  {
    var s := "$" + key + "," + rest;
    assert StartsWith(s, "$" + key) && s[|key| + 1] == ',' && s[|key| + 2..] == rest;
    var t := "$" + key + rest;
    assert StartsWith(t, "$" + key) && t[|key| + 1..] == rest;
  }

  /** A truthy value replaces its placeholder where a word ends, and leaves
      a longer word that merely starts with the key alone. */
  lemma SubstituteKeyAtWordEnd(key: string, repl: string, rest: string)
    ensures (rest == [] || !IsWordChar(rest[0])) ==>
              SubstituteKey("$" + key + rest, key, repl) == repl + SubstituteKey(rest, key, repl)
    ensures (rest != [] && IsWordChar(rest[0])) ==>
              SubstituteKey("$" + key + rest, key, repl) == "$" + SubstituteKey(key + rest, key, repl)
  {
    var t := "$" + key + rest;
    assert StartsWith(t, "$" + key) && t[|key| + 1..] == rest;
    assert t[1..] == key + rest;
    if rest != [] {
      assert t[|key| + 1] == rest[0];
    }
  }

  /** One context item: a truthy value is substituted, a falsy one removed. */
  function ApplyItem(s: string, item: (string, Value), floatText: real -> string): string
  {
    if Truthy(item.1) then SubstituteKey(s, item.0, ValueText(item.1, floatText))
    else DropKey(s, item.0)
  }

  /** The template after the context items, in order. */
  function ApplyItems(s: string, items: seq<(string, Value)>, floatText: real -> string): string
  {
    if items == [] then s
    else ApplyItem(ApplyItems(s, items[..|items| - 1], floatText), items[|items| - 1], floatText)
  }

  /** What `render_request_template` returns. */
  function RenderSpec(baseDir: string, reqtype: string, context: seq<(string, Value)>,
                      read: string -> Option<string>, floatText: real -> string): string
  {
    var path := TemplatePath(baseDir, reqtype);
    if path.None? || read(path.value).None? then []
    else StripVariables(ApplyItems(read(path.value).value, context, floatText))
  }

  /** `render_request_template`: substitute or remove each context item in
      turn, then drop every placeholder that is left; a request type without
      a template, or a missing template file, gives the empty text. */
  method RenderRequestTemplate(baseDir: string, reqtype: string, context: seq<(string, Value)>,
                               read: string -> Option<string>, floatText: real -> string)
    returns (content: string)
    requires forall j :: 0 <= j < |context| ==> IsIdentifier(context[j].0)
    requires forall j :: 0 <= j < |context| && Truthy(context[j].1) ==> '\\' !in ValueText(context[j].1, floatText)
    ensures content == RenderSpec(baseDir, reqtype, context, read, floatText)
    ensures NoVariables(content)
    ensures TemplatePath(baseDir, reqtype).None? ==> content == []
  {
    var path := TemplatePath(baseDir, reqtype);
    if path.None? || read(path.value).None? {
      return [];
    }
    content := read(path.value).value;
    for i := 0 to |context|
      invariant content == ApplyItems(read(path.value).value, context[..i], floatText)
    {
      assert context[..i + 1][..i] == context[..i];
      content := ApplyItem(content, context[i], floatText);
    }
    assert context[..|context|] == context;
    StripVariablesLeavesNone(content);
    content := StripVariables(content);
  }
}
