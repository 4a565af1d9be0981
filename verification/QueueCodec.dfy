/** The queue of entity types as the session stores it: decimal numbers joined with commas. */
module QueueCodec {
  import opened Wrappers

  type Int8 = n: int | -0x80 <= n < 0x80

  /** The conversion int8(n), which keeps the low eight bits. */
  function ToInt8(n: int): Int8 {
    (n + 0x80) % 0x100 - 0x80
  }

  // ----- strconv.Itoa and strconv.Atoi -----

  function Digits(n: nat): (s: string)
    ensures s != []
    ensures forall c <- s :: '0' <= c <= '9'
  {
    var last := ['0' + (n % 10) as char];
    if n < 10 then last else Digits(n / 10) + last
  }

  function Itoa(n: int): string {
    if n < 0 then "-" + Digits(-n) else Digits(n)
  }

  function DigitsValue(s: string): Option<nat> {
    if s == [] then Some(0)
    else
      var high, c := DigitsValue(s[..|s| - 1]), s[|s| - 1];
      if high.Some? && '0' <= c <= '9' then Some(high.value * 10 + (c as int - '0' as int)) else None
  }

  /** An optional sign, at least one digit, and a value that fits in 64 bits. */
  function Atoi(s: string): Option<int> {
    if s == [] then None
    else
      var digits := if s[0] == '-' || s[0] == '+' then s[1..] else s;
      var magnitude := DigitsValue(digits);
      if digits == [] || magnitude.None? then None
      else
        var n := (if s[0] == '-' then -1 else 1) * magnitude.value;
        if -0x8000_0000_0000_0000 <= n < 0x8000_0000_0000_0000 then Some(n) else None
  }

  lemma {:induction false} DigitsValueOfDigits(n: nat)
    ensures DigitsValue(Digits(n)) == Some(n)
  {
    if n >= 10 {
      DigitsValueOfDigits(n / 10);
      assert Digits(n)[..|Digits(n)| - 1] == Digits(n / 10);
    } else {
      assert Digits(n)[..0] == [];
    }
  }

  lemma AtoiOfItoa(n: int)
    requires -0x8000_0000_0000_0000 <= n < 0x8000_0000_0000_0000
    ensures Atoi(Itoa(n)) == Some(n)
  {
    hide DigitsValue, Digits;
    if n < 0 {
      DigitsValueOfDigits(-n);
      assert Itoa(n)[1..] == Digits(-n);
    } else {
      DigitsValueOfDigits(n);
      assert Digits(n)[0] in Digits(n);
    }
  }

  // ----- strings.Split and strings.Join with "," -----

  function Split(s: string): (parts: seq<string>)
    ensures parts != []
  {
    if s == [] then [[]]
    else
      var before, c := Split(s[..|s| - 1]), s[|s| - 1];
      if c == ',' then before + [[]]
      else before[..|before| - 1] + [before[|before| - 1] + [c]]
  }

  function Join(parts: seq<string>): string {
    if parts == [] then ""
    else if |parts| == 1 then parts[0]
    else Join(parts[..|parts| - 1]) + "," + parts[|parts| - 1]
  }

  lemma {:induction false} SplitNoComma(s: string)
    requires ',' !in s
    ensures Split(s) == [s]
  {
    if s != [] {
      assert s[|s| - 1] in s;
      SplitNoComma(s[..|s| - 1]);
      assert s[..|s| - 1] + [s[|s| - 1]] == s;
    }
  }

  lemma {:induction false} SplitAtComma(a: string, b: string)
    requires ',' !in b
    ensures Split(a + "," + b) == Split(a) + [b]
  {
    var s := a + "," + b;
    if b == [] {
      assert s[..|s| - 1] == a;
    } else {
      var b' := b[..|b| - 1];
      assert b[|b| - 1] in b;
      SplitAtComma(a, b');
      assert s[..|s| - 1] == a + "," + b';
      assert b' + [b[|b| - 1]] == b;
      var before := Split(a) + [b'];
      assert before[..|before| - 1] == Split(a);
    }
  }

  lemma {:induction false} SplitOfJoin(parts: seq<string>)
    requires parts != [] && forall p <- parts :: ',' !in p
    ensures Split(Join(parts)) == parts
  {
    hide Split;
    if |parts| == 1 {
      assert parts[0] in parts && parts == [parts[0]];
      SplitNoComma(parts[0]);
    } else {
      var n := |parts| - 1;
      assert parts[n] in parts && forall p <- parts[..n] :: p in parts;
      SplitOfJoin(parts[..n]);
      SplitAtComma(Join(parts[..n]), parts[n]);
      assert parts[..n] + [parts[n]] == parts;
    }
  }

  // ----- the queue -----

  function Itoas(queue: seq<int>): (parts: seq<string>)
    ensures |parts| == |queue|
  {
    seq(|queue|, i requires 0 <= i < |queue| => Itoa(queue[i]))
  }

  function QueueToString(queue: seq<int>): string {
    Join(Itoas(queue))
  }

  function ParseParts(parts: seq<string>): Option<seq<Int8>> {
    if parts == [] then Some([])
    else
      var before, last := ParseParts(parts[..|parts| - 1]), Atoi(parts[|parts| - 1]);
      if before.Some? && last.Some? then Some(before.value + [ToInt8(last.value)]) else None
  }

  function ParseQueue(s: string): Option<seq<Int8>> {
    if s == "" then Some([]) else ParseParts(Split(s))
  }

  lemma {:induction false} ParsePartsOfItoas(queue: seq<Int8>)
    ensures ParseParts(Itoas(queue)) == Some(queue)
  {
    hide Itoa, Atoi;
    if queue != [] {
      var n := |queue| - 1;
      assert Itoas(queue)[..n] == Itoas(queue[..n]);
      ParsePartsOfItoas(queue[..n]);
      AtoiOfItoa(queue[n]);
      assert queue[..n] + [queue[n]] == queue;
    }
  }

  lemma ItoaHasNoComma(n: int)
    ensures ',' !in Itoa(n) && Itoa(n) != ""
  {
  }

  /** Reading a stored queue gives back the queue, for every sequence of int8 values. */
  lemma QueueRoundTrip(queue: seq<Int8>)
    ensures ParseQueue(QueueToString(queue)) == Some(queue)
  {
    if queue != [] {
      var parts := Itoas(queue);
      forall p | p in parts ensures ',' !in p && p != "" {
        var i :| 0 <= i < |queue| && p == Itoa(queue[i]);
        ItoaHasNoComma(queue[i]);
      }
      assert parts[|parts| - 1] in parts;
      SplitOfJoin(parts);
      ParsePartsOfItoas(queue);
    }
  }

  /** The same string is never stored for two queues. */
  lemma QueueStringsAreDistinct(a: seq<Int8>, b: seq<Int8>)
    requires QueueToString(a) == QueueToString(b)
    ensures a == b
  {
    QueueRoundTrip(a);
    QueueRoundTrip(b);
  }

  /** What is stored, character by character. */
  lemma StoredQueues()
    ensures QueueToString([]) == ""
    ensures QueueToString([5]) == "5"
    ensures QueueToString([1, 2, 7]) == "1,2,7"
    ensures QueueToString([127, -128]) == "127,-128"
  {
    hide Itoa;
    StoredNumbers();
    assert Itoas([5]) == ["5"] && Itoas([1, 2, 7]) == ["1", "2", "7"] && Itoas([127, -128]) == ["127", "-128"];
    assert ["1", "2", "7"][..2] == ["1", "2"] && ["1", "2"][..1] == ["1"];
    assert ["127", "-128"][..1] == ["127"];
  }

  lemma StoredNumbers()
    ensures Itoa(1) == "1" && Itoa(2) == "2" && Itoa(5) == "5" && Itoa(7) == "7"
    ensures Itoa(127) == "127" && Itoa(-128) == "-128" && Itoa(300) == "300"
  {
    assert Digits(12) == "12" && Digits(30) == "30";
    assert Digits(127) == "127" && Digits(128) == "128" && Digits(300) == "300";
  }

  /** A number that does not fit in 64 bits is not read. */
  lemma AtoiIsBounded(n: int)
    requires !(-0x8000_0000_0000_0000 <= n < 0x8000_0000_0000_0000)
    ensures Atoi(Itoa(n)).None?
  {
    hide DigitsValue, Digits;
    if n < 0 {
      DigitsValueOfDigits(-n);
      assert Itoa(n)[1..] == Digits(-n);
    } else {
      DigitsValueOfDigits(n);
      assert Digits(n)[0] in Digits(n);
    }
  }

  /** Nothing but an optional sign and digits is a number. */
  lemma ForeignNumbers()
    ensures Atoi("").None? && Atoi("-").None? && Atoi(" 2").None? && Atoi("a").None?
    ensures Atoi("+5") == Some(5) && Atoi("-5") == Some(-5) && Atoi("007") == Some(7)
  {
    assert "007"[..2] == "00" && "00"[..1] == "0" && "0"[..0] == "";
    assert "+5"[1..] == "5" && "5"[..0] == "" && "-5"[1..] == "5";
    assert "a"[..0] == "" && " 2"[..1] == " " && " "[..0] == "";
  }

  /** A number is cut to eight bits, and one part that is no number spoils the queue. */
  lemma ForeignQueues()
    ensures ParseQueue("300").Some? && ParseQueue("300").value == [44]
    ensures ParseQueue("1,").None?
  {
    hide Split, Atoi;
    StoredNumbers();
    AtoiOfItoa(300);
    SplitNoComma("300");
    assert Atoi("300") == Some(300) && ToInt8(300) == 44;
    assert ["300"][..0] == [] && ParseParts(["300"]).value == [44];
    assert Atoi("").None? by { ForeignNumbers(); }
    SplitNoComma("1");
    SplitAtComma("1", "");
    assert "1" + "," + "" == "1," && ParseParts(["1"] + [""]).None?;
  }

  // ----- as the program runs them -----

  method TypeQueueToString(typeQueue: seq<Int8>) returns (s: string)
    ensures s == QueueToString(typeQueue)
    ensures ParseQueue(s) == Some(typeQueue)
  {
    hide Itoa, ParseQueue;
    QueueRoundTrip(typeQueue);
    if |typeQueue| == 0 {
      return "";
    }
    var strs: seq<string> := [];
    for i := 0 to |typeQueue|
      invariant strs == Itoas(typeQueue[..i])
    {
      strs := strs + [Itoa(typeQueue[i])];
    }
    assert typeQueue[..|typeQueue|] == typeQueue;
    s := Join(strs);
  }

  /** None stands for the error of Atoi. */
  method ParseEntityQueue(typeQueue: string) returns (queue: Option<seq<Int8>>)
    ensures queue == ParseQueue(typeQueue)
  {
    if typeQueue == "" {
      return Some([]);
    }
    var entities := Split(typeQueue);
    var intTypeQueue: seq<Int8> := [];
    for i := 0 to |entities|
      invariant ParseParts(entities[..i]) == Some(intTypeQueue)
    {
      assert entities[..i + 1][..i] == entities[..i];
      var entityType := Atoi(entities[i]);
      if entityType.None? {
        FailureStays(entities, i + 1);
        return None;
      }
      intTypeQueue := intTypeQueue + [ToInt8(entityType.value)];
    }
    assert entities[..|entities|] == entities;
    queue := Some(intTypeQueue);
  }

  lemma {:induction false} FailureStays(parts: seq<string>, i: nat)
    requires i <= |parts| && ParseParts(parts[..i]).None?
    ensures ParseParts(parts).None?
    decreases |parts|
  {
    if i < |parts| {
      assert parts[..|parts| - 1][..i] == parts[..i];
      FailureStays(parts[..|parts| - 1], i);
    } else {
      assert parts[..i] == parts;
    }
  }
}
