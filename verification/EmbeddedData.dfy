/** The bytes of one file, printed as adjacent string literals of at most 16
    bytes and read back as a C++ compiler would. Printing functions take the
    text that follows, so that reading can consume from the front. */
module EmbeddedData {
  import opened SharedTypes
  import opened CxxLexer

  const PER_LITERAL := 16

  /** From inside a literal, before byte `j`: the bytes, the breaks between
      literals, and the last closing quote. */
  function Body(data: seq<Byte>, j: nat, rest: string): (s: string)
    requires j < |data|
    ensures |s| > 0 && s[0] == '\\'
    decreases |data| - j
  {
    if j + 1 == |data| then HexByte(data[j]) + ("\"" + rest)
    else if (j + 1) % PER_LITERAL == 0 then HexByte(data[j]) + ("\"" + ("\n  \"" + Body(data, j + 1, rest)))
    else HexByte(data[j]) + Body(data, j + 1, rest)
  }

  /** What the byte loop and the closing quote print. Without bytes no opening
      quote is printed. */
  function DataText(data: seq<Byte>, rest: string): (s: string) {
    if data == [] then "\"" + rest else "\n  \"" + Body(data, 0, rest)
  }

  /** The literals' contents from byte `j` on. */
  function Chunks(data: seq<Byte>, j: nat): (c: seq<string>)
    requires j < |data|
    ensures c != []
    decreases |data| - j
  {
    if j + 1 == |data| then [[data[j]]]
    else
      var c := Chunks(data, j + 1);
      if (j + 1) % PER_LITERAL == 0 then [[data[j]]] + c else PrependFirst(data[j], c)
  }

  function PrependFirst(b: char, c: seq<string>): (r: seq<string>)
    requires c != []
  {
    [[b] + c[0]] + c[1..]
  }

  // ---- Chunks are the data ------------------------------------------------------

  lemma {:induction false} ChunksFlatten(data: seq<Byte>, j: nat)
    requires j < |data|
    ensures Flatten(Chunks(data, j)) == data[j..]
    decreases |data| - j
  {
    if j + 1 == |data| {
      assert [[data[j]]][1..] == [];
      assert Flatten([]) == "";
      assert Flatten([[data[j]]]) == [data[j]] + "";
    } else {
      var c := Chunks(data, j + 1);
      ChunksFlatten(data, j + 1);
      assert data[j..] == [data[j]] + data[j + 1..];
      assert ([[data[j]]] + c)[1..] == c;
      assert PrependFirst(data[j], c)[1..] == c[1..];
      assert [data[j]] + (c[0] + Flatten(c[1..])) == [data[j]] + c[0] + Flatten(c[1..]);
    }
  }

  /** Bytes still to come in the literal that holds byte `j`. */
  function RoomLeft(n: nat, j: nat): (r: nat)
    requires j < n
  {
    var left := PER_LITERAL - j % PER_LITERAL;
    if n - j < left then n - j else left
  }

  lemma RoomStep(n: nat, j: nat)
    requires j + 1 < n
    ensures (j + 1) % PER_LITERAL == 0 ==> RoomLeft(n, j) == 1
    ensures (j + 1) % PER_LITERAL != 0 ==> RoomLeft(n, j) == RoomLeft(n, j + 1) + 1
  {
  }

  /** Every literal holds between 1 and 16 bytes, and all but the last hold 16 (the first
      of them less what came before byte `j`). */
  lemma {:induction false} ChunksShort(data: seq<Byte>, j: nat)
    requires j < |data|
    ensures |Chunks(data, j)[0]| == RoomLeft(|data|, j) <= 16
    ensures forall i :: 0 <= i < |Chunks(data, j)| ==> 0 < |Chunks(data, j)[i]| <= 16
    ensures |Chunks(data, j)| > 1 ==> |Chunks(data, j)[0]| == 16 - j % 16
    ensures forall i :: 1 <= i < |Chunks(data, j)| - 1 ==> |Chunks(data, j)[i]| == 16
    decreases |data| - j
  {
    if j + 1 < |data| {
      ChunksShort(data, j + 1);
      RoomStep(|data|, j);
    }
  }

  // ---- Reading ---------------------------------------------------------------------

  lemma AdjacentByte(b: Byte, t: string)
    requires t != "" && !IsHex(t[0])
    ensures LexAdjacent(HexByte(b) + t) ==
      match LexAdjacent(t)
      case None => None
      case Some(l) => Some(Lexed(PrependFirst(b, l.value), l.rest))
  {
    hide LexChars, HexByte;
    LexHexByte(b, t);
    match LexChars(t)
    case None =>
    case Some(l) =>
      assert forall m: seq<string> :: PrependFirst(b, [l.value] + m) == [[b] + l.value] + m;
      assert PrependFirst(b, [l.value]) == [[b] + l.value];
  }

  lemma SkipBreak(t: string)
    ensures SkipSpace("\n  \"" + t) == "\"" + t
  {
    var s := "\n  \"" + t;
    assert s[1..] == "  \"" + t;
    assert s[1..][1..] == " \"" + t;
    assert s[1..][1..][1..] == "\"" + t;
    assert SkipSpace("\"" + t) == "\"" + t;
    assert SkipSpace(" \"" + t) == "\"" + t;
    assert SkipSpace("  \"" + t) == "\"" + t;
  }

  /** A closing quote, a line break and an opening quote. */
  lemma AdjacentBreak(t: string)
    ensures LexAdjacent("\"" + ("\n  \"" + t)) ==
      match LexAdjacent(t)
      case None => None
      case Some(l) => Some(Lexed([""] + l.value, l.rest))
  {
    var s := "\"" + ("\n  \"" + t);
    assert s[1..] == "\n  \"" + t;
    assert LexChars(s) == Some(Lexed("", s[1..]));
    SkipBreak(t);
    assert ("\"" + t)[1..] == t;
  }

  lemma AdjacentEnd(rest: string)
    requires rest != "" && rest[0] == ','
    ensures LexAdjacent("\"" + rest) == Some(Lexed([""], rest))
  {
    assert ("\"" + rest)[1..] == rest;
    assert SkipSpace(rest) == rest;
  }

  lemma {:induction false} AdjacentBody(data: seq<Byte>, j: nat, rest: string)
    requires j < |data| && rest != "" && rest[0] == ','
    ensures LexAdjacent(Body(data, j, rest)) == Some(Lexed(Chunks(data, j), rest))
    decreases |data| - j
  {
    hide LexAdjacent, HexByte;
    if j + 1 == |data| {
      AdjacentByte(data[j], "\"" + rest);
      AdjacentEnd(rest);
      assert [data[j]] + "" == [data[j]];
      assert PrependFirst(data[j], [""]) == [[data[j]] + ""];
    } else {
      AdjacentBody(data, j + 1, rest);
      var c := Chunks(data, j + 1);
      if (j + 1) % PER_LITERAL == 0 {
        AdjacentByte(data[j], "\"" + ("\n  \"" + Body(data, j + 1, rest)));
        AdjacentBreak(Body(data, j + 1, rest));
        assert [data[j]] + "" == [data[j]];
        assert PrependFirst(data[j], [""] + c) == [[data[j]] + ""] + c;
      } else {
        AdjacentByte(data[j], Body(data, j + 1, rest));
      }
    }
  }

  /** Adjacent literals, opening quote included. */
  function ReadLiterals(s: string): (r: Option<Lexed<seq<string>>>) {
    var t := SkipSpace(s);
    if t != "" && t[0] == '\"' then LexAdjacent(t[1..]) else None
  }

  /** Reading the printed bytes succeeds exactly when there are any. It then
      gives literals of 16 bytes each, of which only the last may be shorter,
      and which concatenate to the file. */
  lemma ReadPrintedData(data: seq<Byte>, rest: string)
    requires |rest| > 1 && rest[0] == ',' && rest[1] == '\n'
    ensures ReadLiterals(DataText(data, rest)).Some? <==> data != []
    ensures data != [] ==>
      && ReadLiterals(DataText(data, rest)) == Some(Lexed(Chunks(data, 0), rest))
      && Flatten(Chunks(data, 0)) == data
      && (forall i :: 0 <= i < |Chunks(data, 0)| ==> 0 < |Chunks(data, 0)[i]| <= 16)
      && forall i :: 0 <= i < |Chunks(data, 0)| - 1 ==> |Chunks(data, 0)[i]| == 16
  {
    if data == [] {
      var s := "\"" + rest;
      assert s[1..] == rest;
      assert LexChars(rest[1..]) == None;
      assert LexChars(rest) == None;
    } else {
      hide LexAdjacent, Body;
      var t := Body(data, 0, rest);
      SkipBreak(t);
      assert ("\"" + t)[1..] == t;
      AdjacentBody(data, 0, rest);
      ChunksFlatten(data, 0);
      ChunksShort(data, 0);
      assert data[0..] == data;
    }
  }

  // ---- Printing --------------------------------------------------------------------------

  lemma Assoc(a: string, b: string, c: string)
    ensures a + b + c == a + (b + c)
  {
  }

  lemma NoBytes(rest: string)
    ensures DataText([], rest) == "\"" + rest
  {
  }

  /** One turn of the byte loop. */
  lemma PrintByte(data: seq<Byte>, j: nat, rest: string, out0: string, before: string, quoted: string)
    requires j < |data|
    requires if j == 0 then before == out0 else before + Remaining(data, j, rest) == out0 + DataText(data, rest)
    requires quoted ==
      if j % PER_LITERAL != 0 then before else if j > 0 then before + "\"" + "\n  \"" else before + "\n  \""
    ensures quoted + HexByte(data[j]) + AfterByte(data, j, rest) == out0 + DataText(data, rest)
  {
    hide HexByte;
    Assoc(quoted, HexByte(data[j]), AfterByte(data, j, rest));
    assert Body(data, j, rest) == HexByte(data[j]) + AfterByte(data, j, rest);
    if j == 0 {
      Assoc(out0, "\n  \"", Body(data, 0, rest));
    } else if j % PER_LITERAL == 0 {
      Assoc(before, "\"", "\n  \"" + Body(data, j, rest));
      Assoc(before + "\"", "\n  \"", Body(data, j, rest));
    }
  }

  /** The byte loop and the closing quote, appended to `out0`. The counter is a
      C `int`. */
  method PrintData(out0: string, data: seq<Byte>) returns (out: string, printed: nat)
    requires |data| < 0x8000_0000
    ensures printed == |data|
    ensures forall rest :: out + rest == out0 + DataText(data, rest)
  {
    hide Body, HexByte, DataText, Remaining;
    out := out0;
    var j := 0;
    while j < |data|
      invariant 0 <= j <= |data|
      invariant j == 0 ==> out == out0
      invariant 0 < j < |data| ==> forall rest :: out + Remaining(data, j, rest) == out0 + DataText(data, rest)
      invariant 0 < j == |data| ==> forall rest :: out + ("\"" + rest) == out0 + DataText(data, rest)
    {
      ghost var before := out;
      if j % PER_LITERAL == 0 {
        if j > 0 {
          out := out + "\"";
        }
        out := out + "\n  \"";
      }
      ghost var quoted := out;
      out := out + HexByte(data[j]);
      forall rest ensures out + AfterByte(data, j, rest) == out0 + DataText(data, rest) {
        if j > 0 {
          assert before + Remaining(data, j, rest) == out0 + DataText(data, rest);
        }
        PrintByte(data, j, rest, out0, before, quoted);
      }
      j := j + 1;
    }
    ghost var before := out;
    out := out + "\"";
    forall rest ensures out + rest == out0 + DataText(data, rest) {
      Assoc(before, "\"", rest);
      if data == [] {
        NoBytes(rest);
      }
    }
    printed := j;
  }

  /** What is still to be printed before byte `j > 0`, its break included. */
  ghost function Remaining(data: seq<Byte>, j: nat, rest: string): (s: string)
    requires j < |data|
  {
    if j % PER_LITERAL == 0 then "\"" + ("\n  \"" + Body(data, j, rest)) else Body(data, j, rest)
  }

  /** What is still to be printed after byte `j`. */
  ghost function AfterByte(data: seq<Byte>, j: nat, rest: string): (s: string)
    requires j < |data|
  {
    if j + 1 == |data| then "\"" + rest else Remaining(data, j + 1, rest)
  }
}
