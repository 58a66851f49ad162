/**
 The texts of the two ports of the service center: which command a text is, what it
 does to later queries, and what is answered to one that is no command, all said of
 the characters received.
 */
module RegistryTexts {
  import opened Options
  import opened RegistrySpec

  // ---------- reading ----------

  lemma {:induction false} FirstOfJoined(a: string, c: char, b: string)
    requires c !in a
    ensures FirstOf(a + [c] + b, c) == |a|
    decreases |a|
  {
    var s := a + [c] + b;
    if a != [] {
      assert s[0] == a[0] && s[1..] == a[1..] + [c] + b;
      assert c !in a[1..];
      FirstOfJoined(a[1..], c, b);
    }
  }

  lemma {:induction false} FirstOfNone(s: string, c: char)
    requires c !in s
    ensures FirstOf(s, c) == |s|
  {
    if s != [] {
      FirstOfNone(s[1..], c);
    }
  }

  /** A text of at most 1023 characters without a NUL is received as it is. */
  lemma ReceivedWhole(text: string)
    requires |text| < 1024 && '\0' !in text
    ensures Received(text) == text
  {
    FirstOfNone(text, '\0');
  }

  /** Of any other, what precedes the first NUL of its first 1023 characters. */
  lemma ReceivedPart(raw: string)
    ensures var r, s := Received(raw), if |raw| < 1024 then raw else raw[..1023];
      r <= s && '\0' !in r && (r == s || s[|r|] == '\0')
  {
  }

  /** Everything in front of the first space, or the whole text. */
  predicate StartsWith(text: string, word: string) {
    ' ' !in word && (text == word || (word <= text && |word| < |text| && text[|word|] == ' '))
  }

  /** `text` is the word, a name and an address, with a space between each. */
  predicate Names(text: string, word: string, name: string, addr: string) {
    name != "" && addr != "" && ' ' !in name && text == word + [' '] + (name + [' '] + addr)
  }

  /** A command of three parts is read as such, whatever the address contains. */
  lemma ParsedAsNamed(text: string, word: string, name: string, addr: string)
    requires ' ' !in word && Names(text, word, name, addr)
    ensures ParseCommand(text) ==
      if word == "add" || word == "heartbeat" then Put(word, name, addr)
      else if word == "modify" then Modify(name, addr)
      else if word == "delete" then Delete(name + [' '] + addr)
      else if word == "lookup" then Lookup
      else Unknown
  {
    var content := name + [' '] + addr;
    FirstOfJoined(word, ' ', content);
    FirstOfJoined(name, ' ', addr);
    assert text[..|word|] == word && text[|word| + 1..] == content;
    assert content[..|name|] == name && content[|name| + 1..] == addr;
  }

  /** The first word of a text is unique, and is what is in front of the first space. */
  lemma FirstWord(text: string, word: string)
    ensures StartsWith(text, word) <==> text[..FirstOf(text, ' ')] == word
  {
    if StartsWith(text, word) {
      if text == word {
        FirstOfNone(text, ' ');
      } else {
        assert text == word + [' '] + text[|word| + 1..];
        FirstOfJoined(word, ' ', text[|word| + 1..]);
      }
    }
  }

  /** The first word of `text`, and what follows the space behind it. */
  function Word(text: string): string {
    text[..FirstOf(text, ' ')]
  }

  function Rest(text: string): string {
    if FirstOf(text, ' ') == |text| then "" else text[FirstOf(text, ' ') + 1..]
  }

  /** A command is decided by its first word, and by whether the rest is a name and an address. */
  lemma ParsedByWord(text: string)
    ensures var word, pair := Word(text), ParseServiceAndAddr(Rest(text));
      ParseCommand(text) ==
        if word == "add" || word == "heartbeat" then (if pair.Some? then Put(word, pair.value.name, pair.value.addr) else Invalid)
        else if word == "delete" then Delete(Rest(text))
        else if word == "lookup" then Lookup
        else if word == "modify" then (if pair.Some? then Modify(pair.value.name, pair.value.addr) else Invalid)
        else Unknown
  {
  }

  predicate IsPair(content: string, name: string, addr: string) {
    name != "" && addr != "" && ' ' !in name && content == name + [' '] + addr
  }

  lemma PairOfText(content: string)
    ensures var pair := ParseServiceAndAddr(content);
      && (pair.Some? ==> IsPair(content, pair.value.name, pair.value.addr))
      && (forall name, addr :: IsPair(content, name, addr) ==> pair == Some(NamedAddr(name, addr)))
  {
    var n := FirstOf(content, ' ');
    if n < |content| {
      assert content == content[..n] + [' '] + content[n + 1..];
    }
    forall name, addr | IsPair(content, name, addr) ensures ParseServiceAndAddr(content) == Some(NamedAddr(name, addr)) {
      FirstOfJoined(name, ' ', addr);
      assert content[..|name|] == name && content[|name| + 1..] == addr;
    }
  }

  lemma NamesByWord(text: string, word: string, name: string, addr: string)
    requires ' ' !in word
    ensures Names(text, word, name, addr) <==> word == Word(text) && IsPair(Rest(text), name, addr)
  {
    if Names(text, word, name, addr) {
      var content := name + [' '] + addr;
      FirstOfJoined(word, ' ', content);
      assert text[..|word|] == word && text[|word| + 1..] == content;
    }
    if FirstOf(text, ' ') < |text| {
      assert text == Word(text) + [' '] + Rest(text);
    }
  }

  /** And nothing else is: a text that registers is the word, a name and an address. */
  lemma NamedIfParsed(text: string)
    ensures match ParseCommand(text)
      case Put(word, name, addr) => (word == "add" || word == "heartbeat") && Names(text, word, name, addr)
      case Modify(name, addr) => Names(text, "modify", name, addr)
      case Delete(name) => StartsWith(text, "delete") && name == Rest(text)
      case Lookup => StartsWith(text, "lookup")
      case Invalid => StartsWith(text, "add") || StartsWith(text, "heartbeat") || StartsWith(text, "modify")
      case Unknown => forall word :: word in {"add", "heartbeat", "delete", "lookup", "modify"} ==> !StartsWith(text, word)
  {
    ParsedByWord(text);
    PairOfText(Rest(text));
    FirstWord(text, Word(text));
    match ParseCommand(text)
    case Put(word, name, addr) => NamesByWord(text, word, name, addr);
    case Modify(name, addr) => NamesByWord(text, "modify", name, addr);
    case Unknown =>
      forall word | word in {"add", "heartbeat", "delete", "lookup", "modify"} ensures !StartsWith(text, word) {
        FirstWord(text, word);
      }
    case _ =>
  }

  // ---------- what a text does ----------

  /** The reply to a query of `name` at `now`, and the services it leaves. */
  function Asked(m: Services, ttl: int, name: string, now: int): Reply {
    Handle(m, ttl, Query(name), now).reply
  }

  /** A name that a query can carry. */
  predicate Queryable(name: string) {
    name != "" && |name| < 1024 && '\0' !in name
  }

  /** `Control(text)` is received as a text with these three parts. */
  predicate Sends(text: string, word: string, name: string, addr: string) {
    Names(text, word, name, addr) && |text| < 1024 && '\0' !in text && Queryable(name)
  }

  /** A connection that sends nothing gets nothing and changes nothing; any other is answered. */
  lemma OnlySilenceIsIgnored(m: Services, ttl: int, r: Request, now: int)
    ensures var d := Handle(m, ttl, r, now); if r.raw == "" then d == Done(m, Silence) else d.reply != Silence
  {
  }

  /** "add NAME ADDR" and "heartbeat NAME ADDR" make NAME known at ADDR for as long as the TTL. */
  lemma AddingByText(m: Services, ttl: int, text: string, word: string, name: string, addr: string, now: int, later: int)
    requires word == "add" || word == "heartbeat"
    requires Sends(text, word, name, addr)
    ensures var d := Handle(m, ttl, Control(text), now);
      && d.reply == Success(word)
      && Asked(d.services, ttl, name, later) == (if later - now <= ttl then Address(addr) else UnknownHost)
      && (forall other :: other in d.services && other != name <==> other in m && other != name)
      && (forall other :: other in m && other != name ==> d.services[other] == m[other])
  {
    assert ' ' !in word;
    ReceivedWhole(text);
    ReceivedWhole(name);
    ParsedAsNamed(text, word, name, addr);
    assert Handle(m, ttl, Control(text), now) == Done(m[name := Node(addr, now)], Success(word));
  }

  /** "modify NAME ADDR" does the same for a name that is held, and nothing for any other. */
  lemma ModifyingByText(m: Services, ttl: int, text: string, name: string, addr: string, now: int, later: int)
    requires Sends(text, "modify", name, addr)
    ensures var d := Handle(m, ttl, Control(text), now);
      if name in m then
        && d.reply == Success("modify")
        && Asked(d.services, ttl, name, later) == (if later - now <= ttl then Address(addr) else UnknownHost)
      else d.reply == NotExist && d.services == m
  {
    ReceivedWhole(text);
    ReceivedWhole(name);
    ParsedAsNamed(text, "modify", name, addr);
  }

  /** "delete NAME" makes a held name unknown, and says of any other that it does not exist. */
  lemma DeletingByText(m: Services, ttl: int, text: string, name: string, now: int, later: int)
    requires text == "delete" + [' '] + name && |text| < 1024 && '\0' !in text && Queryable(name)
    ensures var d := Handle(m, ttl, Control(text), now);
      && (if name in m then d.reply == Success("delete") else d.reply == NotExist && d.services == m)
      && Asked(d.services, ttl, name, later) == (if name in m then UnknownHost else Asked(m, ttl, name, later))
  {
    ReceivedWhole(text);
    ReceivedWhole(name);
    FirstOfJoined("delete", ' ', name);
    assert text[..6] == "delete" && text[7..] == name;
  }

  /** Whether `text` is some word, a name and an address. */
  ghost predicate HasThreeParts(text: string) {
    exists word, name, addr :: ' ' !in word && Names(text, word, name, addr)
  }

  lemma ThreePartsByPair(text: string)
    ensures HasThreeParts(text) <==> ParseServiceAndAddr(Rest(text)).Some?
  {
    PairOfText(Rest(text));
    var pair := ParseServiceAndAddr(Rest(text));
    if pair.Some? {
      NamesByWord(text, Word(text), pair.value.name, pair.value.addr);
    }
    if HasThreeParts(text) {
      var word, name, addr :| ' ' !in word && Names(text, word, name, addr);
      NamesByWord(text, word, name, addr);
    }
  }

  /**
   A text that asks to register without a name and an address, and one that starts
   with no known word, are refused and change nothing.
   */
  lemma RefusedByText(m: Services, ttl: int, text: string, now: int)
    requires text != "" && |text| < 1024 && '\0' !in text
    ensures var d := Handle(m, ttl, Control(text), now);
      && (d.reply == InvalidCommand <==>
            (StartsWith(text, "add") || StartsWith(text, "heartbeat") || StartsWith(text, "modify")) && !HasThreeParts(text))
      && (d.reply == UnknownCommand <==>
            !StartsWith(text, "add") && !StartsWith(text, "heartbeat") && !StartsWith(text, "delete")
            && !StartsWith(text, "lookup") && !StartsWith(text, "modify"))
      && (d.reply == InvalidCommand || d.reply == UnknownCommand ==> d.services == m)
  {
    ReceivedWhole(text);
    ParsedByWord(text);
    ThreePartsByPair(text);
    FirstWord(text, "add");
    FirstWord(text, "heartbeat");
    FirstWord(text, "modify");
    FirstWord(text, "delete");
    FirstWord(text, "lookup");
    ExecuteReplies(m, ttl, ParseCommand(text), now);
  }

  lemma ExecuteReplies(m: Services, ttl: int, c: Command, now: int)
    ensures var d := Execute(m, ttl, c, now);
      && (d.reply == InvalidCommand <==> c == Invalid) && (d.reply == UnknownCommand <==> c == Unknown)
      && (c == Invalid || c == Unknown ==> d.services == m)
  {
  }
}
