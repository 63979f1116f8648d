// Reading a seeding script back into the task list it describes, for titles
// that need no escaping. The loader pastes titles in verbatim, so this only
// inverts it for titles free of the double quote (ends a JSON string), the
// single quote (ends the JavaScript string literal around the array), the
// backslash (starts an escape in both) and the control characters U+0000 to
// U+001F (section 7 of RFC 8259 requires them escaped in a JSON string, and
// a raw line break inside a JavaScript string literal is a syntax error).

module ScriptDecode {
  import opened Fixture
  import opened Script

  datatype Option<T> = None | Some(value: T)

  /** A title that can be pasted unescaped: no delimiter of the JSON string
      or of the surrounding JavaScript literal, no escape character, and no
      control character. */
  predicate SafeText(text: string)
  {
    forall i :: 0 <= i < |text| ==>
      text[i] >= ' ' && text[i] != '"' && text[i] != '\'' && text[i] != '\\'
  }

  /** Index of the first double quote, or the length when there is none. */
  function FirstQuote(s: string): (n: nat)
    ensures n <= |s|
    ensures forall j :: 0 <= j < n ==> s[j] != '"'
    ensures n < |s| ==> s[n] == '"'
  {
    if s == [] || s[0] == '"' then 0 else 1 + FirstQuote(s[1..])
  }

  /** Reads a completion flag off the front of s. */
  function DecodeFlag(s: string): (r: Option<(TaskType, string)>)
    ensures r.Some? ==> Flag(r.value.0) + r.value.1 == s
    ensures "false" <= s ==> r == Some((Active, s[5..]))
  {
    if "false" <= s then
      assert s == s[..5] + s[5..];
      Some((Active, s[5..]))
    else if "true" <= s then
      assert s == s[..4] + s[4..];
      Some((Completed, s[4..]))
    else None
  }

  /** Reads one array element off the front of b; returns the task and what
      follows the element. */
  function DecodeElement(b: string): (r: Option<(Task, string)>)
    ensures r.Some? ==> Element(r.value.0) + r.value.1 == b && SafeText(r.value.0.text)
  {
    if !(KeyCompleted <= b) then None
    else
      var afterKey := b[|KeyCompleted|..];
      match DecodeFlag(afterKey)
      case None => None
      case Some((taskType, afterFlag)) =>
        if !(KeyTitle <= afterFlag) then None
        else
          var title := afterFlag[|KeyTitle|..];
          var n := FirstQuote(title);
          var text := title[..n];
          if !(CloseElement <= title[n..]) || !SafeText(text) then None
          else
            var rest := title[n + 2..];
            ElementParts(b, taskType, afterKey, afterFlag, title, n);
            Some((Task(text, taskType), rest))
  }

  /** The splits DecodeElement makes put the element back together. */
  lemma ElementParts(b: string, taskType: TaskType, afterKey: string, afterFlag: string, title: string, n: nat)
    requires KeyCompleted <= b && afterKey == b[|KeyCompleted|..]
    requires afterKey == Flag(taskType) + afterFlag
    requires KeyTitle <= afterFlag && title == afterFlag[|KeyTitle|..]
    requires n <= |title| && CloseElement <= title[n..]
    ensures b == Element(Task(title[..n], taskType)) + title[n + |CloseElement|..]
  {
    SplitAt(b, KeyCompleted);
    SplitAt(afterFlag, KeyTitle);
    SplitAt(title[n..], CloseElement);
    assert title == title[..n] + title[n..];
    assert title[n..][|CloseElement|..] == title[n + |CloseElement|..];
    Assoc(KeyCompleted, Flag(taskType), KeyTitle, title[..n], CloseElement, title[n + |CloseElement|..]);
  }

  /** A string that starts with p is p followed by the remainder. */
  lemma SplitAt(s: string, p: string)
    requires p <= s
    ensures s == p + s[|p|..]
  {
  }

  /** Concatenation of six strings, regrouped to the right. */
  lemma Assoc(a: string, b: string, c: string, d: string, e: string, f: string)
    ensures a + b + c + d + e + f == a + (b + (c + (d + (e + f))))
  {
  }

  /** Reads a non-empty comma-separated run of elements that makes up all of b. */
  function DecodeElements(b: string): (r: Option<seq<Task>>)
    ensures r.Some? ==> r.value != [] && JoinComma(Elements(r.value)) == b
    ensures r.Some? ==> forall t :: t in r.value ==> SafeText(t.text)
    decreases |b|
  {
    match DecodeElement(b)
    case None => None
    case Some((t, rest)) =>
      if rest == [] then
        assert Elements([t]) == [Element(t)];
        Some([t])
      else if rest[0] != ',' then None
      else
        match DecodeElements(rest[1..])
        case None => None
        case Some(ts) =>
          JoinElementsCons(t, ts, rest);
          Some([t] + ts)
  }

  /** An element followed by a comma and the joined remainder is the joined
      list with that element in front. */
  lemma JoinElementsCons(t: Task, ts: seq<Task>, rest: string)
    requires ts != [] && rest != [] && rest[0] == ','
    requires JoinComma(Elements(ts)) == rest[1..]
    ensures JoinComma(Elements([t] + ts)) == Element(t) + rest
  {
    assert Elements([t] + ts) == [Element(t)] + Elements(ts);
    JoinCommaCons(Element(t), Elements(ts));
    CommaSplit(Element(t), rest);
  }

  /** A string led by a comma is that comma and the remainder. */
  lemma CommaSplit(e: string, rest: string)
    requires rest != [] && rest[0] == ','
    ensures e + rest == e + "," + rest[1..]
  {
    assert rest == "," + rest[1..];
  }

  /** Reads a whole seeding script: the fixed prefix, an empty or non-empty
      array body, the fixed suffix. Whatever it accepts is exactly what the
      loader produces for the decoded tasks. */
  function Decode(script: string): (r: Option<seq<Task>>)
    ensures r.Some? ==> Payload(r.value) == script
    ensures r.Some? ==> forall t :: t in r.value ==> SafeText(t.text)
  {
    if |script| < |Prefix| + |Suffix| || script[..|Prefix|] != Prefix
       || script[|script| - |Suffix|..] != Suffix then None
    else
      var body := script[|Prefix|..|script| - |Suffix|];
      assert script == Prefix + body + Suffix;
      if body == [] then
        assert Elements([]) == [];
        Some([])
      else DecodeElements(body)
  }

  /** Decoding undoes encoding for one element whose title is safe, whatever
      text follows it. */
  lemma DecodeElementOfElement(t: Task, rest: string)
    requires SafeText(t.text)
    ensures DecodeElement(Element(t) + rest) == Some((t, rest))
  {
    var closed := CloseElement + rest;
    var title := t.text + closed;
    var afterFlag := KeyTitle + title;
    var afterKey := Flag(t.taskType) + afterFlag;
    var b := Element(t) + rest;
    Assoc(KeyCompleted, Flag(t.taskType), KeyTitle, t.text, CloseElement, rest);
    assert b == KeyCompleted + afterKey;
    ConcatParts(KeyCompleted, afterKey);
    DecodeFlagOfFlag(t.taskType, afterFlag);
    ConcatParts(KeyTitle, title);
    FirstQuoteAt(t.text, closed);
    ConcatParts(t.text, closed);
    ConcatParts(CloseElement, rest);
  }

  /** A string is a prefix of any extension of it, and dropping it leaves the
      extension. */
  lemma ConcatParts(p: string, s: string)
    ensures p <= p + s && (p + s)[..|p|] == p && (p + s)[|p|..] == s
  {
  }

  /** The first double quote after a quote-free text is the one that follows it. */
  lemma FirstQuoteAt(text: string, tail: string)
    requires forall i :: 0 <= i < |text| ==> text[i] != '"'
    requires tail != [] && tail[0] == '"'
    ensures FirstQuote(text + tail) == |text|
  {
    var s := text + tail;
    var n := FirstQuote(s);
    assert s[|text|] == '"';
  }

  /** Reading a flag back gives the task type it was written from, and
      leaves what followed it. */
  lemma DecodeFlagOfFlag(taskType: TaskType, s: string)
    ensures DecodeFlag(Flag(taskType) + s) == Some((taskType, s))
  {
    var f := Flag(taskType) + s;
    if taskType == Active {
      ConcatParts("false", s);
    } else {
      ConcatParts("true", s);
      assert f[0] == 't';
    }
  }

  /** Decoding undoes joining for a non-empty list of safe tasks. */
  lemma {:induction false} DecodeElementsOfJoin(tasks: seq<Task>)
    requires tasks != []
    requires forall t :: t in tasks ==> SafeText(t.text)
    ensures DecodeElements(JoinComma(Elements(tasks))) == Some(tasks)
    decreases |tasks|
  {
    var t := tasks[0];
    var ts := tasks[1..];
    var e := Element(t);
    if ts == [] {
      assert tasks == [t];
      assert Elements(tasks) == [e];
      assert e + "" == e;
      DecodeElementOfElement(t, "");
      assert DecodeElements(e) == Some([t]);
    } else {
      var tail := JoinComma(Elements(ts));
      var rest := "," + tail;
      assert rest[1..] == tail;
      assert tasks == [t] + ts;
      JoinElementsCons(t, ts, rest);
      DecodeElementOfElement(t, rest);
      DecodeElementsOfJoin(ts);
      assert DecodeElements(e + rest) == Some([t] + ts);
    }
  }

  /** The round trip: a list of tasks is read back exactly, in order, from
      its script if and only if none of its titles holds a double quote, a
      single quote, a backslash or a control character. */
  lemma RoundTrip(tasks: seq<Task>)
    ensures Decode(Payload(tasks)) == Some(tasks) <==> forall t :: t in tasks ==> SafeText(t.text)
  {
    if !(forall t :: t in tasks ==> SafeText(t.text)) {
      return;
    }
    if tasks == [] {
      assert Elements(tasks) == [];
    } else {
      DecodeElementsOfJoin(tasks);
      JoinedElementsNonEmpty(tasks);
    }
  }

  /** A non-empty list of tasks gives a non-empty array body. */
  lemma JoinedElementsNonEmpty(tasks: seq<Task>)
    requires tasks != []
    ensures JoinComma(Elements(tasks)) != []
  {
    var e := Element(tasks[0]);
    assert e == KeyCompleted + (Flag(tasks[0].taskType) + KeyTitle + tasks[0].text + CloseElement);
    if |tasks| == 1 {
      assert Elements(tasks) == [e];
    } else {
      assert Elements(tasks) == [e] + Elements(tasks[1..]);
      JoinCommaCons(e, Elements(tasks[1..]));
    }
  }

  /** A title holding a raw line break is not read back: pasted unescaped,
      it would break the JavaScript literal. */
  lemma LineBreakInTitleNotReadBack()
    ensures Decode(Payload([Task("a\nb", Active)])) != Some([Task("a\nb", Active)])
  {
    var t := Task("a\nb", Active);
    assert t.text[1] == '\n';
    assert !SafeText(t.text);
    RoundTrip([t]);
  }

  /** For safe titles, different task lists give different scripts. */
  lemma PayloadInjective(a: seq<Task>, b: seq<Task>)
    requires forall t :: t in a ==> SafeText(t.text)
    requires forall t :: t in b ==> SafeText(t.text)
    requires Payload(a) == Payload(b)
    ensures a == b
  {
    RoundTrip(a);
    RoundTrip(b);
  }

  /** Without escaping, a title holding a double quote can forge further
      elements: one active task yields the very script of two tasks, the
      second of them completed. */
  lemma QuoteInTitleForgesElements()
    ensures Payload([Task("x\"},{\"completed\":true, \"title\":\"y", Active)])
         == Payload([Task("x", Active), Task("y", Completed)])
  {
    var one := Task("x\"},{\"completed\":true, \"title\":\"y", Active);
    var x := Task("x", Active);
    var y := Task("y", Completed);
    assert JoinComma(Elements([one])) == Element(one) by {
      assert Elements([one]) == [Element(one)];
    }
    assert JoinComma(Elements([x, y])) == Element(x) + "," + Element(y) by {
      assert Elements([x, y]) == [Element(x), Element(y)];
      assert [Element(x), Element(y)][..1] == [Element(x)];
    }
    ForgedElement();
  }

  /** The forged title closes its own element and opens a completed one. */
  lemma ForgedElement()
    ensures Element(Task("x\"},{\"completed\":true, \"title\":\"y", Active))
         == Element(Task("x", Active)) + "," + Element(Task("y", Completed))
  {
    ForgedTitle();
    ForgedRegroup(KeyCompleted, "false", KeyTitle, "x", CloseElement, ",", "true", "y");
  }

  /** The forged title, spelled with the element delimiters. */
  lemma ForgedTitle()
    ensures "x\"},{\"completed\":true, \"title\":\"y"
         == "x" + CloseElement + "," + KeyCompleted + "true" + KeyTitle + "y"
  {
  }

  /** The concatenation regrouping QuoteInTitleForgesElements needs. */
  lemma ForgedRegroup(kc: string, f1: string, kt: string, t1: string, ce: string, sep: string, f2: string, t2: string)
    ensures kc + f1 + kt + (t1 + ce + sep + kc + f2 + kt + t2) + ce
         == (kc + f1 + kt + t1 + ce) + sep + (kc + f2 + kt + t2 + ce)
  {
  }
}
