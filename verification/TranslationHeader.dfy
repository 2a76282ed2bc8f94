/** The generated header as a whole: the declarations, the sentinel-ended table,
    and the lookup function that the header contains. */
module TranslationHeader {
  import opened SharedTypes
  import opened CxxLexer
  import opened EmbeddedData
  import opened HeaderReader

  datatype File = File(name: string, data: seq<Byte>)

  // ---- Fixed pieces of text ------------------------------------------------------

  function IfndefLine(): (s: string) { "#ifndef TRANSLATION_FILES_H\n" }

  function DefineLine(): (s: string) { "#define TRANSLATION_FILES_H\n\n" }

  function IncludeLine(): (s: string) { "#include <string>\n\n" }

  function Prologue(): (s: string) {
    IfndefLine() + DefineLine() + IncludeLine()
  }

  function NameVar(): (s: string) { "static const std::string translation_file_name_" }

  function DataVar(): (s: string) { "static const std::string translation_file_data_" }

  function StructLine(): (s: string) { "static const struct embedded_file {\n" }

  function NameMember(): (s: string) { "  const std::string *name;\n" }

  function DataMember(): (s: string) { "  const std::string *data;\n" }

  function ArrayLine(): (s: string) { "} embedded_files[] = {\n" }

  function TableStart(): (s: string) {
    StructLine() + NameMember() + DataMember() + ArrayLine()
  }

  function RowName(): (s: string) { "  {&translation_file_name_" }

  function RowData(): (s: string) { ", &translation_file_data_" }

  function Sentinel(): (s: string) { "  {NULL, NULL}\n" }

  /** The end of the header, around the text of the lookup function. */
  function Epilogue(code: string): (s: string) {
    "};\n\n" + code + "\n" + EndifLine()
  }

  function EndifLine(): (s: string) { "#endif /* TRANSLATION_FILES_H */\n" }

  // ---- Printed text -----------------------------------------------------------------

  function DataDecl(i: nat, data: seq<Byte>, rest: string): (s: string) {
    DataVar() + (Decimal(i) + (" = std::string(" + DataText(data, ",\n  " + (Decimal(|data|) + (");\n\n" + rest)))))
  }

  function DeclText(i: nat, f: File, rest: string): (s: string) {
    NameVar() + (Decimal(i) + (" = \"" + (f.name + ("\"" + (";\n" + DataDecl(i, f.data, rest))))))
  }

  /** The declarations of the files from position `k` on; numbers start at 1. */
  function DeclsText(files: seq<File>, k: nat, rest: string): (s: string)
    requires k <= |files|
    decreases |files| - k
  {
    if k == |files| then rest else DeclText(k + 1, files[k], DeclsText(files, k + 1, rest))
  }

  function RowsText(k: nat, n: nat, rest: string): (s: string)
    requires k <= n
    decreases n - k
  {
    if k == n then Sentinel() + rest
    else RowName() + (Decimal(k + 1) + (RowData() + (Decimal(k + 1) + ("},\n" + RowsText(k + 1, n, rest)))))
  }

  function HeaderText(files: seq<File>, code: string): (s: string) {
    hide Prologue, TableStart, Epilogue;
    Prologue() + DeclsText(files, 0, TableStart() + RowsText(0, |files|, Epilogue(code)))
  }

  // ---- Names ---------------------------------------------------------------------------

  /** A name that a literal can hold as it stands. */
  predicate Plain(name: string) {
    forall c :: c in name ==> c != '\"' && c != '\\' && c != '\n'
  }

  lemma {:induction false} LexPlain(name: string, rest: string)
    requires Plain(name)
    ensures LexChars(name + ("\"" + rest)) == Some(Lexed(name, rest))
  {
    var s := name + ("\"" + rest);
    if name == "" {
      assert s == "\"" + rest && s[1..] == rest;
    } else {
      assert s[1..] == name[1..] + ("\"" + rest);
      assert name[0] in name;
      assert Plain(name[1..]) by { assert forall c :: c in name[1..] ==> c in name; }
      LexPlain(name[1..], rest);
      assert [name[0]] + name[1..] == name;
    }
  }

  /** A literal that spends one character of text per character of value, plus
      its closing quote, holds no escape. */
  lemma {:induction false} LexTight(s: string)
    requires LexChars(s).Some?
    ensures var l := LexChars(s).value; |l.value| + |l.rest| + 1 <= |s|
    ensures var l := LexChars(s).value; |l.value| + |l.rest| + 1 == |s| ==> Plain(l.value)
    decreases |s|
  {
    if s[0] == '\"' {
    } else if s[0] == '\\' {
      LexTight(LexEscape(s[1..]).value.rest);
    } else {
      LexTight(s[1..]);
      var l := LexChars(s[1..]).value;
      assert LexChars(s).value.value == [s[0]] + l.value;
    }
  }

  /** A printed name is read back as it is exactly when it holds no quote,
      backslash or line break. */
  lemma NameReadsBackIff(name: string, rest: string)
    ensures LexChars(name + ("\"" + rest)) == Some(Lexed(name, rest)) <==> Plain(name)
  {
    var s := name + ("\"" + rest);
    if Plain(name) {
      LexPlain(name, rest);
    } else if LexChars(s) == Some(Lexed(name, rest)) {
      LexTight(s);
    }
  }

  /** An escape that starts before the closing quote ends before it, too. */
  lemma EscapeWithin(name: string, rest: string) returns (m: nat)
    requires name != "" && LexEscape(name + ("\"" + rest)).Some?
    ensures 1 <= m <= |name| && LexEscape(name + ("\"" + rest)).value.rest == name[m..] + ("\"" + rest)
  {
    hide LexEscape, SimpleEscape, HexRun, OctalRun;
    var s := name + ("\"" + rest);
    assert s[|name|] == '\"';
    m := EscapeLength(s);
    if SimpleEscape(s[0]).None? {
      RunsStop(s, |name|);
    }
    DropPrefix(name, "\"" + rest, m);
  }

  lemma DropPrefix(a: string, b: string, m: nat)
    requires m <= |a|
    ensures (a + b)[m..] == a[m..] + b
  {
  }

  lemma EscapeLength(s: string) returns (m: nat)
    requires LexEscape(s).Some?
    ensures 1 <= m <= |s| && LexEscape(s).value.rest == s[m..]
    ensures m == if SimpleEscape(s[0]).Some? then 1 else if s[0] == 'x' then 1 + HexRun(s[1..]) else OctalRun(s, 3)
  {
    hide SimpleEscape, HexRun, OctalRun, ValueOf;
    m := if SimpleEscape(s[0]).Some? then 1 else if s[0] == 'x' then 1 + HexRun(s[1..]) else OctalRun(s, 3);
    assert s[0] == 'x' ==> s[1..][HexRun(s[1..])..] == s[1 + HexRun(s[1..])..];
  }

  /** A quote ends a run of digits. */
  lemma RunsStop(s: string, n: nat)
    requires 0 < n < |s| && s[n] == '\"'
    ensures HexRun(s[1..]) <= n - 1 && OctalRun(s, 3) <= n
  {
    hide HexRun, OctalRun;
    assert s[1..][n - 1] == '\"';
  }

  /** A literal never runs past its printed closing quote: a backslash before
      that quote would carry it on to the end of the line. */
  lemma {:induction false} LexStops(name: string, rest: string)
    ensures var l := LexChars(name + ("\"" + (";\n" + rest))); l.Some? ==> |l.value.rest| >= |";\n" + rest|
    decreases |name|
  {
    var after := ";\n" + rest;
    var s := name + ("\"" + after);
    if name != "" && s[0] == '\\' {
      if name == "\\" {
        assert s[1..] == "\"" + after && s[1..][1..] == after;
        assert after[1..] == "\n" + rest;
        assert LexChars(after).None?;
      } else {
        assert s[1..] == name[1..] + ("\"" + after);
        if LexEscape(s[1..]).Some? {
          var m := EscapeWithin(name[1..], after);
          LexStops(name[1..][m..], rest);
        }
      }
    } else if name != "" && s[0] != '\"' && s[0] != '\n' {
      assert s[1..] == name[1..] + ("\"" + after);
      LexStops(name[1..], rest);
    }
  }

  /** A name that is not plain is refused or read as another one. */
  lemma NotPlainIsLost(name: string, rest: string)
    requires !Plain(name)
    ensures var l := LexChars(name + ("\"" + (";\n" + rest))); l.Some? ==> l.value.value != name
  {
    var s := name + ("\"" + (";\n" + rest));
    if LexChars(s).Some? {
      LexStops(name, rest);
      LexTight(s);
    }
  }

  // ---- Reading back what was printed ---------------------------------------------------

  lemma ReadPrintedArgs(data: seq<Byte>, rest: string)
    ensures ReadData(DataText(data, ",\n  " + (Decimal(|data|) + (");\n\n" + rest)))) ==
      if data == [] then None else Some(Lexed(data, rest))
  {
    hide Decimal, ReadLiterals, DataText, Flatten, Chunks;
    var c := ");\n\n" + rest;
    var b := Decimal(|data|) + c;
    var a := ",\n  " + b;
    ReadPrintedData(data, a);
    if data != [] {
      ReadArgs(DataText(data, a), Chunks(data, 0), |data|, rest);
      assert (data + [0 as char])[..|data|] == data;
    }
  }

  /** The literals, then a comma, a length and the end of the declaration. */
  lemma ReadArgs(s: string, lits: seq<string>, n: nat, rest: string)
    requires ReadLiterals(s) == Some(Lexed(lits, ",\n  " + (Decimal(n) + (");\n\n" + rest))))
    requires n <= |Flatten(lits)|
    ensures ReadData(s) == Some(Lexed((Flatten(lits) + [0 as char])[..n], rest))
  {
    hide Decimal, ReadLiterals, Flatten, SkipSpace, LexNumber, Expect;
    var c := ");\n\n" + rest;
    var b := Decimal(n) + c;
    assert ",\n  " + b == "," + ("\n  " + b);
    ExpectOwn(",", "\n  " + b);
    SkipToNumber(b);
    LexDecimal(n, c);
    ExpectOwn(");\n\n", rest);
  }

  lemma SkipToNumber(s: string)
    requires s != "" && IsDigit(s[0])
    ensures SkipSpace("\n  " + s) == s
  {
    var t := "\n  " + s;
    assert t[1..] == "  " + s;
    assert t[1..][1..] == " " + s;
    assert t[1..][1..][1..] == s;
    assert SkipSpace(s) == s;
    assert SkipSpace(" " + s) == s;
    assert SkipSpace("  " + s) == s;
  }

  // ---- Identifiers and fixed words ------------------------------------------------------

  function NameIdent(i: nat): (s: string) { "translation_file_name_" + Decimal(i) }

  function DataIdent(i: nat): (s: string) { "translation_file_data_" + Decimal(i) }

  lemma IdentsAreIdents(i: nat)
    ensures AllIdent(NameIdent(i)) && AllIdent(DataIdent(i))
  {
    hide Decimal;
    assert AllIdent("translation_file_name_") && AllIdent("translation_file_data_");
    assert forall k :: 0 <= k < |Decimal(i)| ==> Decimal(i)[k] in Decimal(i);
  }

  lemma IdentsDiffer(i: nat, j: nat)
    ensures NameIdent(i) != DataIdent(j)
    ensures NameIdent(i) == NameIdent(j) ==> i == j
    ensures DataIdent(i) == DataIdent(j) ==> i == j
  {
    hide Decimal;
    assert NameIdent(i)[17] == 'n' && DataIdent(j)[17] == 'd';
    assert NameIdent(i)[22..] == Decimal(i) && NameIdent(j)[22..] == Decimal(j);
    assert DataIdent(i)[22..] == Decimal(i) && DataIdent(j)[22..] == Decimal(j);
    DecimalValue(i);
    DecimalValue(j);
  }

  lemma ReadOwnDecl(word: string, ident: string, rest: string)
    requires word == DECL + ident && ident != "" && AllIdent(ident)
    ensures Expect(word + (" = " + rest), DECL).Some?
    ensures ReadDecl(word + (" = " + rest)) ==
      match ReadInit(rest)
      case None => None
      case Some(v) => Some(Lexed(Decl(ident, v.value), v.rest))
  {
    hide ReadInit, ReadIdent, Expect, AllIdent;
    assert word + (" = " + rest) == DECL + (ident + (" = " + rest));
    ExpectOwn(DECL, ident + (" = " + rest));
    ReadIdentOwn(ident, " = " + rest);
    ExpectOwn(" = ", rest);
  }

  lemma ReadPrintedDataDecl(i: nat, data: seq<Byte>, rest: string)
    ensures Expect(DataDecl(i, data, rest), DECL).Some?
    ensures ReadDecl(DataDecl(i, data, rest)) ==
      if data == [] then None else Some(Lexed(Decl(DataIdent(i), data), rest))
  {
    hide Decimal, ReadData, DataText;
    var args := DataText(data, ",\n  " + (Decimal(|data|) + (");\n\n" + rest)));
    IdentsAreIdents(i);
    DataDeclText(i, args);
    ReadOwnDecl(DECL + DataIdent(i), DataIdent(i), "std::string(" + args);
    assert ("std::string(" + args)[0] == 's';
    ExpectOwn("std::string(", args);
    ReadPrintedArgs(data, rest);
  }

  lemma DataDeclText(i: nat, args: string)
    ensures DataVar() + (Decimal(i) + (" = std::string(" + args)) ==
      DECL + DataIdent(i) + (" = " + ("std::string(" + args))
  {
    assert DataVar() == DECL + "translation_file_data_";
    StringInit(args);
    hide Decimal, DataVar;
    Regroup(DECL, "translation_file_data_", Decimal(i), " = std::string(" + args);
  }

  lemma StringInit(args: string)
    ensures " = std::string(" + args == " = " + ("std::string(" + args)
  {
  }

  lemma Regroup(a: string, b: string, c: string, d: string)
    ensures a + b + (c + d) == a + (b + c) + d
  {
  }

  lemma NameDeclText(i: nat, rest: string)
    ensures NameVar() + (Decimal(i) + (" = \"" + rest)) == DECL + NameIdent(i) + (" = " + ("\"" + rest))
  {
    assert NameVar() == DECL + "translation_file_name_";
    assert " = \"" + rest == " = " + ("\"" + rest);
    hide Decimal, NameVar;
    Regroup(DECL, "translation_file_name_", Decimal(i), " = \"" + rest);
  }

  /** The first of the two declarations of a file, up to what its literal reads as. */
  lemma ReadNameDecl(i: nat, name: string, rest: string)
    ensures var s := NameVar() + (Decimal(i) + (" = \"" + (name + ("\"" + (";\n" + rest)))));
      && Expect(s, DECL).Some?
      && ReadDecl(s) ==
         match LexChars(name + ("\"" + (";\n" + rest)))
         case None => None
         case Some(l) =>
           match Expect(l.rest, ";\n")
           case None => None
           case Some(after) => Some(Lexed(Decl(NameIdent(i), l.value), after))
  {
    hide Decimal, LexChars;
    var c := name + ("\"" + (";\n" + rest));
    IdentsAreIdents(i);
    NameDeclText(i, c);
    ReadOwnDecl(DECL + NameIdent(i), NameIdent(i), "\"" + c);
    ExpectOwn("\"", c);
  }

  function DeclsOf(files: seq<File>, k: nat): (d: seq<Decl>)
    requires k <= |files|
    decreases |files| - k
  {
    if k == |files| then []
    else [Decl(NameIdent(k + 1), files[k].name), Decl(DataIdent(k + 1), files[k].data)] + DeclsOf(files, k + 1)
  }

  lemma {:induction false} DeclsAt(files: seq<File>, k: nat, i: nat)
    requires k <= i < |files|
    ensures |DeclsOf(files, k)| == 2 * (|files| - k)
    ensures DeclsOf(files, k)[2 * (i - k)] == Decl(NameIdent(i + 1), files[i].name)
    ensures DeclsOf(files, k)[2 * (i - k) + 1] == Decl(DataIdent(i + 1), files[i].data)
    decreases |files| - k
  {
    hide NameIdent, DataIdent;
    var ds := DeclsOf(files, k);
    if k + 1 < |files| {
      var more := DeclsOf(files, k + 1);
      DeclsAt(files, k + 1, if k == i then k + 1 else i);
      assert forall j :: 2 <= j < |ds| ==> ds[j] == more[j - 2];
    }
  }

  ghost predicate NoneEmpty(files: seq<File>, k: nat) {
    forall i :: k <= i < |files| ==> files[i].data != []
  }

  ghost predicate PlainNames(files: seq<File>) {
    forall i :: 0 <= i < |files| ==> Plain(files[i].name)
  }

  /** Both declarations of a file with a plain name. */
  lemma ReadPrintedFile(i: nat, f: File, rest: string)
    requires Plain(f.name)
    ensures ReadDecls(DeclText(i, f, rest)) ==
      if f.data == [] then None
      else
        match ReadDecls(rest)
        case None => None
        case Some(more) =>
          Some(Lexed([Decl(NameIdent(i), f.name), Decl(DataIdent(i), f.data)] + more.value, more.rest))
  {
    hide Decimal, NameVar, DataDecl, LexChars, Plain, ReadDecl, Expect, NameIdent, DataIdent;
    var after := DataDecl(i, f.data, rest);
    ReadNameDecl(i, f.name, after);
    LexPlain(f.name, ";\n" + after);
    ExpectOwn(";\n", after);
    ReadPrintedDataDecl(i, f.data, rest);
    var d := Decl(NameIdent(i), f.name);
    assert ReadDecl(DeclText(i, f, rest)) == Some(Lexed(d, after));
    if f.data != [] && ReadDecls(rest).Some? {
      assert [d] + ([Decl(DataIdent(i), f.data)] + ReadDecls(rest).value.value) ==
        [d, Decl(DataIdent(i), f.data)] + ReadDecls(rest).value.value;
    }
  }

  lemma {:induction false} ReadPrintedDecls(files: seq<File>, k: nat, rest: string)
    requires k <= |files| && PlainNames(files) && Expect(rest, DECL).None?
    ensures ReadDecls(DeclsText(files, k, rest)) ==
      if NoneEmpty(files, k) then Some(Lexed(DeclsOf(files, k), rest)) else None
    decreases |files| - k
  {
    hide DeclText, Plain, Expect, NameIdent, DataIdent;
    if k < |files| {
      hide ReadDecls;
      ReadPrintedFile(k + 1, files[k], DeclsText(files, k + 1, rest));
      ReadPrintedDecls(files, k + 1, rest);
      assert NoneEmpty(files, k) <==> files[k].data != [] && NoneEmpty(files, k + 1);
    }
  }

  lemma {:induction false} ResolveOwn(decls: seq<Decl>, i: nat)
    requires i < |decls| && forall j :: 0 <= j < i ==> decls[j].ident != decls[i].ident
    ensures Resolve(decls, decls[i].ident) == Some(decls[i])
  {
    if i > 0 {
      ResolveOwn(decls[1..], i - 1);
    }
  }

  lemma EarlierDecl(files: seq<File>, j: nat, k: nat)
    requires k < |files| && j < 2 * k + 1
    ensures j < |DeclsOf(files, 0)|
    ensures DeclsOf(files, 0)[j].ident != DataIdent(k + 1)
    ensures j < 2 * k ==> DeclsOf(files, 0)[j].ident != NameIdent(k + 1)
  {
    hide NameIdent, DataIdent, DeclsOf;
    var i := j / 2;
    DeclsAt(files, 0, i);
    IdentsDiffer(i + 1, k + 1);
    IdentsDiffer(k + 1, i + 1);
    assert j == 2 * i || j == 2 * i + 1;
  }

  lemma ResolveFile(files: seq<File>, k: nat)
    requires k < |files|
    ensures Resolve(DeclsOf(files, 0), NameIdent(k + 1)) == Some(Decl(NameIdent(k + 1), files[k].name))
    ensures Resolve(DeclsOf(files, 0), DataIdent(k + 1)) == Some(Decl(DataIdent(k + 1), files[k].data))
  {
    hide NameIdent, DataIdent, Resolve, DeclsOf;
    var ds := DeclsOf(files, 0);
    DeclsAt(files, 0, k);
    forall j | 0 <= j < 2 * k ensures ds[j].ident != NameIdent(k + 1) {
      EarlierDecl(files, j, k);
    }
    ResolveOwn(ds, 2 * k);
    forall j | 0 <= j < 2 * k + 1 ensures ds[j].ident != DataIdent(k + 1) {
      EarlierDecl(files, j, k);
    }
    ResolveOwn(ds, 2 * k + 1);
  }

  // ---- The table -----------------------------------------------------------------------------

  function RowsOf(files: seq<File>, k: nat): (r: seq<Row>)
    requires k <= |files|
    ensures |r| == |files| - k + 1 && r[|files| - k] == Null
    ensures forall i :: 0 <= i < |files| - k ==> r[i] == RowOf(files, k + i)
    decreases |files| - k
  {
    if k == |files| then [Null] else [RowOf(files, k)] + RowsOf(files, k + 1)
  }

  function RowOf(files: seq<File>, k: nat): (r: Row)
    requires k < |files|
  {
    Entry(Var(NameIdent(k + 1), files[k].name), Var(DataIdent(k + 1), files[k].data))
  }

  const MEMBERS := ["name", "data"]

  lemma MembersEnd(rest: string)
    ensures ReadMembers("}" + rest) == Some(Lexed([], rest))
  {
    ExpectOwn("}", rest);
  }

  lemma MemberMore(member: string, rest: string)
    requires member != "" && AllIdent(member) && ReadMembers(rest).Some?
    ensures ReadMembers("  const std::string *" + (member + (";\n" + rest))) ==
      Some(Lexed([member] + ReadMembers(rest).value.value, ReadMembers(rest).value.rest))
  {
    hide ReadIdent, AllIdent;
    var s := "  const std::string *" + (member + (";\n" + rest));
    assert s[0] == ' ' && "}"[0] == '}';
    ExpectOwn("  const std::string *", member + (";\n" + rest));
    ReadIdentOwn(member, ";\n" + rest);
    ExpectOwn(";\n", rest);
  }

  lemma ReadTwoMembers(rest: string)
    ensures ReadMembers("  const std::string *" + ("name" + (";\n" +
                        ("  const std::string *" + ("data" + (";\n" + ("}" + rest))))))) == Some(Lexed(MEMBERS, rest))
  {
    hide ReadMembers;
    assert AllIdent("name") && AllIdent("data");
    MembersEnd(rest);
    MemberMore("data", "}" + rest);
    MemberMore("name", "  const std::string *" + ("data" + (";\n" + ("}" + rest))));
    assert ["name"] + (["data"] + []) == MEMBERS;
  }

  lemma Regroup3(a: string, b: string, c: string, rest: string)
    ensures a + (b + c) + rest == a + (b + (c + rest))
  {
    Assoc(a, b + c, rest);
    Assoc(b, c, rest);
  }

  lemma StructLineIs(rest: string)
    ensures StructLine() + rest == "static const struct " + ("embedded_file" + (" {\n" + rest))
    ensures Expect(StructLine() + rest, DECL).None?
  {
    assert StructLine() == "static const struct " + ("embedded_file" + " {\n");
    assert (StructLine() + rest)[15] == 'r' && DECL[15] == 'd';
    Regroup3("static const struct ", "embedded_file", " {\n", rest);
  }

  lemma MemberLinesAre(rest: string)
    ensures NameMember() + rest == "  const std::string *" + ("name" + (";\n" + rest))
    ensures DataMember() + rest == "  const std::string *" + ("data" + (";\n" + rest))
  {
    assert NameMember() == "  const std::string *" + ("name" + ";\n");
    assert DataMember() == "  const std::string *" + ("data" + ";\n");
    Regroup3("  const std::string *", "name", ";\n", rest);
    Regroup3("  const std::string *", "data", ";\n", rest);
  }

  lemma ArrayLineIs(rest: string)
    ensures ArrayLine() + rest == "}" + (" " + ("embedded_files" + ("[] = {\n" + rest)))
  {
    assert ArrayLine() == "}" + (" " + ("embedded_files" + "[] = {\n"));
    Assoc("}", " " + ("embedded_files" + "[] = {\n"), rest);
    Regroup3(" ", "embedded_files", "[] = {\n", rest);
  }

  lemma TableStartText(rest: string)
    ensures TableStart() + rest == StructLine() + (NameMember() + (DataMember() + (ArrayLine() + rest)))
  {
    hide StructLine, NameMember, DataMember, ArrayLine;
    Assoc(StructLine() + NameMember() + DataMember(), ArrayLine(), rest);
    Assoc(StructLine() + NameMember(), DataMember(), ArrayLine() + rest);
    Assoc(StructLine(), NameMember(), DataMember() + (ArrayLine() + rest));
  }

  lemma ReadTableStart(rest: string)
    ensures ReadStruct(TableStart() + rest) == Some(Lexed(MEMBERS, rest))
    ensures Expect(TableStart() + rest, DECL).None?
  {
    assert AllIdent("embedded_file") && AllIdent("embedded_files");
    hide TableStart, StructLine, NameMember, DataMember, ArrayLine, ReadMembers, ReadTag, ReadArray, Expect, AllIdent;
    var c := "embedded_files" + ("[] = {\n" + rest);
    TableStartText(rest);
    ArrayLineIs(rest);
    MemberLinesAre("}" + (" " + c));
    MemberLinesAre(DataMember() + ("}" + (" " + c)));
    var b := NameMember() + (DataMember() + ("}" + (" " + c)));
    StructLineIs(b);
    ReadTwoMembers(" " + c);
    ReadOwnTag("embedded_file", b);
    ReadOwnArray("embedded_files", rest);
  }

  lemma ReadOwnTag(tag: string, rest: string)
    requires tag != "" && AllIdent(tag)
    ensures ReadTag("static const struct " + (tag + (" {\n" + rest))) == Some(Lexed(tag, rest))
  {
    hide ReadIdent, Expect, AllIdent;
    ExpectOwn("static const struct ", tag + (" {\n" + rest));
    ReadIdentOwn(tag, " {\n" + rest);
    ExpectOwn(" {\n", rest);
  }

  lemma ReadOwnArray(table: string, rest: string)
    requires table != "" && AllIdent(table)
    ensures ReadArray(" " + (table + ("[] = {\n" + rest))) == Some(Lexed(table, rest))
  {
    hide ReadIdent, Expect, AllIdent;
    ExpectOwn(" ", table + ("[] = {\n" + rest));
    ReadIdentOwn(table, "[] = {\n" + rest);
    ExpectOwn("[] = {\n", rest);
  }

  lemma ReadOnePointer(ident: string, rest: string)
    requires ident != "" && AllIdent(ident) && rest != "" && !IsIdent(rest[0])
    ensures ReadPointer("&" + (ident + rest)) == Some(Lexed(To(ident), rest))
  {
    hide ReadIdent, AllIdent;
    assert ("&" + (ident + rest))[0] == '&' && "NULL"[0] == 'N';
    ExpectOwn("&", ident + rest);
    ReadIdentOwn(ident, rest);
  }

  lemma ReadTwoPointers(a: string, b: string, rest: string)
    requires a != "" && AllIdent(a) && b != "" && AllIdent(b) && rest != "" && rest[0] == '}'
    ensures ReadPointers("&" + (a + (", " + ("&" + (b + rest))))) == Some(Lexed([To(a), To(b)], rest))
  {
    hide ReadPointer, AllIdent;
    var second := "&" + (b + rest);
    ReadOnePointer(a, ", " + second);
    ExpectOwn(", ", second);
    ReadOnePointer(b, rest);
    assert Expect(rest, ", ").None?;
    assert ReadPointers(second) == Some(Lexed([To(b)], rest));
    assert [To(a)] + [To(b)] == [To(a), To(b)];
  }

  lemma ReadTwoNulls(rest: string)
    requires rest != "" && rest[0] == '}'
    ensures ReadPointers("NULL" + (", " + ("NULL" + rest))) == Some(Lexed([NullPointer, NullPointer], rest))
  {
    hide ReadIdent;
    var second := "NULL" + rest;
    ExpectOwn("NULL", ", " + second);
    ExpectOwn(", ", second);
    ExpectOwn("NULL", rest);
    assert Expect(rest, ", ").None?;
    assert ReadPointers(second) == Some(Lexed([NullPointer], rest));
    assert [NullPointer] + [NullPointer] == [NullPointer, NullPointer];
  }

  /** The first pointer fills the member `name`, the second the member `data`. */
  lemma FieldsOf(p: Pointer, q: Pointer)
    ensures Field(MEMBERS, [p, q], "name") == Some(p) && Field(MEMBERS, [p, q], "data") == Some(q)
  {
    assert MEMBERS[0] == "name" && MEMBERS[0][0] == 'n' && "data"[0] == 'd';
    assert MEMBERS[1..] == ["data"] && [p, q][1..] == [q];
    assert Field(["data"], [q], "data") == Some(q);
  }

  lemma SentinelText(rest: string)
    ensures Sentinel() + rest == "  {" + ("NULL" + (", " + ("NULL" + ("}\n" + rest))))
  {
  }

  function NameStem(): (s: string) { "translation_file_name_" }

  function DataStem(): (s: string) { "translation_file_data_" }

  lemma RowNameIs()
    ensures RowName() == "  {" + ("&" + NameStem())
  {
  }

  lemma RowDataIs()
    ensures RowData() == ", " + ("&" + DataStem())
  {
  }

  lemma RowText(k: nat, rest: string)
    ensures RowName() + (Decimal(k) + (RowData() + (Decimal(k) + rest))) ==
      "  {" + ("&" + (NameIdent(k) + (", " + ("&" + (DataIdent(k) + rest)))))
  {
    RowNameIs();
    RowDataIs();
    assert NameIdent(k) == NameStem() + Decimal(k) && DataIdent(k) == DataStem() + Decimal(k);
    hide Decimal, RowName, RowData, NameIdent, DataIdent, NameStem, DataStem;
    var d := Decimal(k) + rest;
    Regroup3(", ", "&", DataStem(), d);
    Assoc(DataStem(), Decimal(k), rest);
    var a := RowData() + d;
    Regroup3("  {", "&", NameStem(), Decimal(k) + a);
    Assoc(NameStem(), Decimal(k), a);
  }

  lemma {:induction false} ReadPrintedRows(files: seq<File>, k: nat, rest: string)
    requires k <= |files|
    ensures ReadRows(RowsText(k, |files|, rest), MEMBERS, DeclsOf(files, 0)) == Some(Lexed(RowsOf(files, k), rest))
    decreases |files| - k
  {
    hide RowName, RowData, Sentinel, Decimal, ReadPointers, Field, NameIdent, DataIdent, Resolve;
    if k == |files| {
      SentinelText(rest);
      var after := "}\n" + rest;
      ExpectOwn("  {", "NULL" + (", " + ("NULL" + after)));
      ReadTwoNulls(after);
      FieldsOf(NullPointer, NullPointer);
      assert after[1] == '\n' && "},\n"[1] == ',';
      ExpectOwn("}\n", rest);
    } else {
      var next := RowsText(k + 1, |files|, rest);
      var after := "},\n" + next;
      var a, b := NameIdent(k + 1), DataIdent(k + 1);
      RowText(k + 1, after);
      IdentsAreIdents(k + 1);
      IdentsNotEmpty(k + 1);
      ExpectOwn("  {", "&" + (a + (", " + ("&" + (b + after)))));
      ReadTwoPointers(a, b, after);
      FieldsOf(To(a), To(b));
      ResolveFile(files, k);
      ExpectOwn("},\n", next);
      ReadPrintedRows(files, k + 1, rest);
    }
  }

  lemma IdentsNotEmpty(i: nat)
    ensures NameIdent(i) != "" && DataIdent(i) != ""
  {
  }

  const GUARD := "TRANSLATION_FILES_H"

  lemma IfndefLineIs(rest: string)
    ensures IfndefLine() + rest == "#ifndef " + (GUARD + ("\n" + rest))
  {
    assert IfndefLine() == "#ifndef " + (GUARD + "\n");
    Regroup3("#ifndef ", GUARD, "\n", rest);
  }

  lemma DefineLineIs(rest: string)
    ensures DefineLine() + rest == "#define " + (GUARD + ("\n\n" + rest))
  {
    assert DefineLine() == "#define " + (GUARD + "\n\n");
    Regroup3("#define ", GUARD, "\n\n", rest);
  }

  lemma EndifLineIs()
    ensures EndifLine() == "#endif /* " + (GUARD + " */\n")
  {
  }

  lemma GuardIsIdent()
    ensures AllIdent(GUARD) && GUARD != ""
  {
  }

  lemma PrologueLines(rest: string)
    ensures Prologue() + rest == IfndefLine() + (DefineLine() + (IncludeLine() + rest))
  {
    hide IfndefLine, DefineLine, IncludeLine;
    Assoc(IfndefLine() + DefineLine(), IncludeLine(), rest);
    Assoc(IfndefLine(), DefineLine(), IncludeLine() + rest);
  }

  lemma ReadPrologue(rest: string)
    ensures ReadGuard(Prologue() + rest) == Some(Lexed(GUARD, rest))
  {
    var c := "#include <string>\n\n" + rest;
    assert IncludeLine() + rest == c;
    hide ReadIdent, Expect, Prologue, IfndefLine, DefineLine, IncludeLine, AllIdent;
    var b := DefineLine() + c;
    GuardIsIdent();
    PrologueLines(rest);
    IfndefLineIs(b);
    DefineLineIs(c);
    ExpectOwn("#ifndef ", GUARD + ("\n" + b));
    ReadIdentOwn(GUARD, "\n" + b);
    ExpectOwn("\n", b);
    ExpectOwn("#define ", GUARD + ("\n\n" + c));
    ReadIdentOwn(GUARD, "\n\n" + c);
    ExpectOwn("\n\n", c);
    ExpectOwn("#include <string>\n\n", rest);
  }

  lemma ReadEpilogue(code: string)
    ensures ReadEnd(Epilogue(code), code) == Some(GUARD)
  {
    GuardIsIdent();
    EndifLineIs();
    hide ReadIdent, Expect, EndifLine, AllIdent;
    var c := EndifLine();
    Assoc("};\n\n" + code, "\n", c);
    Assoc("};\n\n", code, "\n" + c);
    ExpectOwn("};\n\n", code + ("\n" + c));
    ExpectOwn(code, "\n" + c);
    ExpectOwn("\n", c);
    ExpectOwn("#endif /* ", GUARD + " */\n");
    ReadIdentOwn(GUARD, " */\n");
  }

  /** For any list of files whose names a literal can hold, the header compiles
      to the table of all names and contents, followed by the sentinel, exactly
      when no file is empty; with an empty file it does not compile. */
  lemma HeaderReadsBack(files: seq<File>, code: string)
    requires PlainNames(files)
    ensures ReadHeader(HeaderText(files, code), code) == if NoneEmpty(files, 0) then Some(RowsOf(files, 0)) else None
  {
    hide ReadGuard, ReadDecls, ReadStruct, ReadRows, ReadEnd;
    hide Prologue, TableStart, Epilogue, DeclsText, RowsText, Plain;
    var rows := RowsText(0, |files|, Epilogue(code));
    ReadPrologue(DeclsText(files, 0, TableStart() + rows));
    ReadTableStart(rows);
    ReadPrintedDecls(files, 0, TableStart() + rows);
    ReadPrintedRows(files, 0, Epilogue(code));
    ReadEpilogue(code);
  }

  // ---- Exactly when it reads back ---------------------------------------------------------

  lemma ReadLostName(i: nat, f: File, rest: string)
    requires !Plain(f.name)
    ensures var ds := ReadDecls(DeclText(i, f, rest));
      ds.Some? ==> ds.value.value != [] && ds.value.value[0].ident == NameIdent(i) && ds.value.value[0].value != f.name
  {
    hide Decimal, NameVar, DataDecl, LexChars, Plain, ReadDecl, Expect, NameIdent;
    var after := DataDecl(i, f.data, rest);
    ReadNameDecl(i, f.name, after);
    NotPlainIsLost(f.name, after);
  }

  ghost predicate Printable(f: File) {
    Plain(f.name) && f.data != []
  }

  /** `ds` starts with the declarations of the files from `k` up to `b`, and goes on
      with one for the name of file `b`, but with another value. */
  ghost predicate LosesName(ds: seq<Decl>, files: seq<File>, k: nat, b: nat)
    requires k <= b < |files|
  {
    && |ds| > 2 * (b - k)
    && (forall i :: 0 <= i < b - k ==>
          ds[2 * i].ident == NameIdent(k + i + 1) && ds[2 * i + 1].ident == DataIdent(k + i + 1))
    && ds[2 * (b - k)].ident == NameIdent(b + 1) && ds[2 * (b - k)].value != files[b].name
  }

  lemma LosesNameMore(ds: seq<Decl>, files: seq<File>, k: nat, b: nat)
    requires k < b < |files| && LosesName(ds, files, k + 1, b)
    ensures LosesName([Decl(NameIdent(k + 1), files[k].name), Decl(DataIdent(k + 1), files[k].data)] + ds, files, k, b)
  {
    hide NameIdent, DataIdent;
    var d := [Decl(NameIdent(k + 1), files[k].name), Decl(DataIdent(k + 1), files[k].data)] + ds;
    forall i | 0 <= i < b - k
      ensures d[2 * i].ident == NameIdent(k + i + 1) && d[2 * i + 1].ident == DataIdent(k + i + 1)
    {
      if i > 0 {
        assert d[2 * i] == ds[2 * (i - 1)] && d[2 * i + 1] == ds[2 * (i - 1) + 1];
      }
    }
    assert d[2 * (b - k)] == ds[2 * (b - k - 1)];
  }

  lemma {:induction false} ReadDeclsLoses(files: seq<File>, k: nat, b: nat, rest: string)
    requires k <= b < |files| && !Printable(files[b])
    requires forall i :: k <= i < b ==> Printable(files[i])
    ensures var ds := ReadDecls(DeclsText(files, k, rest)); ds.Some? ==> LosesName(ds.value.value, files, k, b)
    decreases b - k
  {
    hide DeclText, ReadDecls, Plain, NameIdent, DataIdent;
    var next := DeclsText(files, k + 1, rest);
    if Plain(files[k].name) {
      ReadPrintedFile(k + 1, files[k], next);
    } else {
      ReadLostName(k + 1, files[k], next);
    }
    if k < b {
      ReadDeclsLoses(files, k + 1, b, rest);
      if ReadDecls(next).Some? {
        LosesNameMore(ReadDecls(next).value.value, files, k, b);
      }
    }
  }

  lemma LostIsResolved(ds: seq<Decl>, files: seq<File>, b: nat)
    requires b < |files| && LosesName(ds, files, 0, b)
    ensures Resolve(ds, NameIdent(b + 1)) == Some(ds[2 * b]) && ds[2 * b].value != files[b].name
  {
    hide NameIdent, DataIdent, Resolve;
    forall j | 0 <= j < 2 * b ensures ds[j].ident != ds[2 * b].ident {
      var i := j / 2;
      assert j == 2 * i || j == 2 * i + 1;
      IdentsDiffer(i + 1, b + 1);
      IdentsDiffer(b + 1, i + 1);
    }
    ResolveOwn(ds, 2 * b);
  }

  lemma FirstUnprintable(files: seq<File>, k: nat) returns (b: nat)
    requires k < |files| && !Printable(files[k])
    ensures b <= k && !Printable(files[b]) && forall i :: 0 <= i < b ==> Printable(files[i])
  {
    b := 0;
    while Printable(files[b])
      invariant b <= k && forall i :: 0 <= i < b ==> Printable(files[i])
      decreases k - b
    {
      b := b + 1;
    }
  }

  /** For any list of files: the header compiles to the table whose rows point, in
      order, at the variables of all names and contents, followed by the
      sentinel, exactly when no name holds a quote, a backslash or a line break
      and no file is empty. An empty file alone keeps it from compiling. */
  lemma HeaderReadsBackIff(files: seq<File>, code: string)
    ensures ReadHeader(HeaderText(files, code), code) == Some(RowsOf(files, 0))
            <==> PlainNames(files) && NoneEmpty(files, 0)
    ensures PlainNames(files) && !NoneEmpty(files, 0) ==> ReadHeader(HeaderText(files, code), code) == None
  {
    if PlainNames(files) {
      HeaderReadsBack(files, code);
    } else {
      var k :| 0 <= k < |files| && !Plain(files[k].name);
      var b := FirstUnprintable(files, k);
      HeaderLosesName(files, code, b);
    }
  }

  /** Every row of the compiled table points at a declaration that was read. */
  lemma RowsAreResolved(text: string, code: string, table: seq<Row>, k: nat)
    requires ReadHeader(Prologue() + text, code) == Some(table) && k < |table| && table[k].Entry?
    ensures ReadDecls(text).Some?
    ensures Resolve(ReadDecls(text).value.value, table[k].name.ident) ==
      Some(Decl(table[k].name.ident, table[k].name.value))
  {
    hide Prologue, ReadGuard, ReadDecls, ReadStruct, ReadRows, ReadEnd, Resolve;
    ReadPrologue(text);
    assert table[k] in table;
  }

  lemma HeaderLosesName(files: seq<File>, code: string, b: nat)
    requires b < |files| && !Printable(files[b])
    requires forall i :: 0 <= i < b ==> Printable(files[i])
    ensures ReadHeader(HeaderText(files, code), code) != Some(RowsOf(files, 0))
  {
    hide ReadHeader, ReadDecls, Resolve, NameIdent, DataIdent;
    hide Prologue, TableStart, Epilogue, DeclsText, RowsText, Printable;
    var rest := TableStart() + RowsText(0, |files|, Epilogue(code));
    ReadDeclsLoses(files, 0, b, rest);
    var ds := ReadDecls(DeclsText(files, 0, rest));
    if ds.Some? {
      LostIsResolved(ds.value.value, files, b);
    }
    assert RowsOf(files, 0)[b] == RowOf(files, b);
    if ReadHeader(HeaderText(files, code), code) == Some(RowsOf(files, 0)) {
      RowsAreResolved(DeclsText(files, 0, rest), code, RowsOf(files, 0), b);
    }
  }

  // ---- The emitted lookup ---------------------------------------------------------------

  ghost predicate HasSentinel(table: seq<Row>) {
    exists k :: 0 <= k < |table| && table[k].Null?
  }

  /** The emitted loop: steps a pointer until it finds the name or the sentinel. */
  method FindEmbeddedFile(table: seq<Row>, name: string, data0: string)
    returns (found: bool, data: string, ghost p: nat)
    requires HasSentinel(table)
    ensures p < |table| && (forall i :: 0 <= i < p ==> table[i].Entry? && table[i].name.value != name)
    ensures found <==> table[p].Entry?
    ensures found ==> table[p].name.value == name && data == table[p].data.value
    ensures !found ==> data == data0
  {
    ghost var last: nat :| last < |table| && table[last].Null?;
    var q := 0;
    while !table[q].Null?
      invariant 0 <= q <= last
      invariant forall i :: 0 <= i < q ==> table[i].Entry? && table[i].name.value != name
      decreases last - q
    {
      if table[q].name.value == name {
        return true, table[q].data.value, q;
      }
      q := q + 1;
    }
    return false, data0, q;
  }

  // ---- The generator ----------------------------------------------------------------------

  /** Prints one file's two declarations after `out0`. */
  method PrintDecl(out0: string, i: nat, f: File) returns (out: string)
    requires |f.data| < 0x8000_0000
    ensures forall rest :: out + rest == out0 + DeclText(i, f, rest)
  {
    hide Decimal, DataText, NameVar, DataVar;
    var a := NameVar() + Decimal(i) + " = \"" + f.name + "\";\n" + DataVar() + Decimal(i) + " = std::string(";
    var b, j := PrintData(out0 + a, f.data);
    var c := ",\n  " + Decimal(j) + ");\n\n";
    out := b + c;
    forall rest ensures out + rest == out0 + DeclText(i, f, rest) {
      var after := ",\n  " + (Decimal(j) + (");\n\n" + rest));
      assert c + rest == after;
      Assoc(b, c, rest);
      Assoc(out0, a, DataText(f.data, after));
      SplitDecl(i, f, rest, DataText(f.data, after));
    }
  }

  lemma SplitDecl(i: nat, f: File, rest: string, text: string)
    requires text == DataText(f.data, ",\n  " + (Decimal(|f.data|) + (");\n\n" + rest)))
    ensures NameVar() + Decimal(i) + " = \"" + f.name + "\";\n" + DataVar() + Decimal(i) + " = std::string(" + text ==
      DeclText(i, f, rest)
  {
    hide Decimal, DataText, NameVar, DataVar;
    var e := " = std::string(" + text;
    var d := DataVar() + (Decimal(i) + e);
    assert NameVar() + Decimal(i) + " = \"" + f.name + "\";\n" + DataVar() + Decimal(i) + " = std::string(" + text
      == NameVar() + Decimal(i) + " = \"" + f.name + "\";\n" + d;
    assert "\";\n" + d == "\"" + (";\n" + d);
    assert NameVar() + Decimal(i) + " = \"" + f.name + "\";\n" + d
      == NameVar() + (Decimal(i) + (" = \"" + (f.name + ("\";\n" + d))));
  }

  /** An argument of the program; no contents when the file cannot be opened. */
  datatype Input = Input(name: string, contents: Option<seq<Byte>>)

  function Files(inputs: seq<Input>): (files: seq<File>)
    requires forall x :: x in inputs ==> x.contents.Some?
    ensures |files| == |inputs|
    ensures forall i :: 0 <= i < |inputs| ==> files[i] == File(inputs[i].name, inputs[i].contents.value)
  {
    seq(|inputs|, i requires 0 <= i < |inputs| => File(inputs[i].name, inputs[i].contents.value))
  }

  /** The table rows after `out0`. */
  method PrintRows(out0: string, n: nat) returns (out: string)
    ensures forall rest :: out + rest == out0 + RowsText(0, n, rest)
  {
    hide RowName, RowData, Sentinel, Decimal;
    out := out0;
    for k := 0 to n
      invariant forall rest :: out + RowsText(k, n, rest) == out0 + RowsText(0, n, rest)
    {
      ghost var before := out;
      var row := RowName() + Decimal(k + 1) + RowData() + Decimal(k + 1) + "},\n";
      out := out + row;
      forall rest ensures out + RowsText(k + 1, n, rest) == out0 + RowsText(0, n, rest) {
        var next := RowsText(k + 1, n, rest);
        Assoc(before, row, next);
        assert row + next == RowsText(k, n, rest);
        assert before + RowsText(k, n, rest) == out0 + RowsText(0, n, rest);
      }
    }
    ghost var before := out;
    out := out + Sentinel();
    forall rest ensures out + rest == out0 + RowsText(0, n, rest) {
      Assoc(before, Sentinel(), rest);
      assert before + RowsText(n, n, rest) == out0 + RowsText(0, n, rest);
    }
  }

  /** The declarations of all files after `out0`, or nothing when a file cannot
      be opened. */
  method PrintFiles(out0: string, inputs: seq<Input>) returns (r: Option<string>)
    requires forall x :: x in inputs && x.contents.Some? ==> |x.contents.value| < 0x8000_0000
    ensures r.Some? <==> forall x :: x in inputs ==> x.contents.Some?
    ensures r.Some? ==> forall rest :: r.value + rest == out0 + DeclsText(Files(inputs), 0, rest)
  {
    hide DeclText;
    var out, k := out0, 0;
    while k < |inputs|
      invariant 0 <= k <= |inputs|
      invariant forall i :: 0 <= i < k ==> inputs[i].contents.Some?
      invariant forall files: seq<File>, rest ::
        && |files| == |inputs|
        && (forall i :: 0 <= i < k ==> files[i] == File(inputs[i].name, inputs[i].contents.value)) ==>
          out + DeclsText(files, k, rest) == out0 + DeclsText(files, 0, rest)
    {
      if inputs[k].contents.None? {
        return None;
      }
      assert inputs[k] in inputs;
      ghost var before := out;
      var f := File(inputs[k].name, inputs[k].contents.value);
      out := PrintDecl(out, k + 1, f);
      forall files: seq<File>, rest |
        |files| == |inputs| && forall i :: 0 <= i < k + 1 ==> files[i] == File(inputs[i].name, inputs[i].contents.value)
        ensures out + DeclsText(files, k + 1, rest) == out0 + DeclsText(files, 0, rest)
      {
        assert files[k] == f;
        assert out + DeclsText(files, k + 1, rest) == before + DeclText(k + 1, f, DeclsText(files, k + 1, rest));
        assert before + DeclsText(files, k, rest) == out0 + DeclsText(files, 0, rest);
      }
      k := k + 1;
    }
    ghost var files := Files(inputs);
    forall rest ensures out + rest == out0 + DeclsText(files, 0, rest) {
      assert out + DeclsText(files, |files|, rest) == out0 + DeclsText(files, 0, rest);
    }
    r := Some(out);
  }

  /** The program: writes the header, or stops when a file cannot be opened.
      `code` is the program's constant text of the lookup function. */
  method Generate(inputs: seq<Input>, code: string) returns (r: Option<string>)
    requires forall x :: x in inputs && x.contents.Some? ==> |x.contents.value| < 0x8000_0000
    ensures r.Some? <==> forall x :: x in inputs ==> x.contents.Some?
    ensures r.Some? ==> r.value == HeaderText(Files(inputs), code)
  {
    hide Prologue, TableStart, Epilogue, RowsText, DeclsText;
    var a :- PrintFiles(Prologue(), inputs);
    var b := PrintRows(a + TableStart(), |inputs|);
    r := Some(b + Epilogue(code));
    ghost var rows := RowsText(0, |inputs|, Epilogue(code));
    Assoc(a, TableStart(), rows);
    assert a + (TableStart() + rows) == Prologue() + DeclsText(Files(inputs), 0, TableStart() + rows);
  }

  /** Looking a name up in the compiled table: it is found exactly when some file
      has it, and then gives the bytes of the first such file. `p` is where the
      emitted loop stops. */
  lemma LookupFindsFirst(files: seq<File>, code: string, table: seq<Row>, name: string, p: nat)
    requires PlainNames(files) && ReadHeader(HeaderText(files, code), code) == Some(table)
    requires p < |table| && (forall i :: 0 <= i < p ==> table[i].Entry? && table[i].name.value != name)
    requires table[p].Entry? ==> table[p].name.value == name
    ensures HasSentinel(table) && p <= |files|
    ensures table[p].Entry? <==> exists f :: f in files && f.name == name
    ensures table[p].Entry? ==> p < |files| && table[p].data.value == files[p].data && files[p].name == name
    ensures forall i :: 0 <= i < p ==> files[i].name != name
  {
    hide ReadHeader, HeaderText, Plain;
    HeaderReadsBack(files, code);
    assert table == RowsOf(files, 0);
    assert table[|files|].Null?;
    forall i | 0 <= i < p ensures files[i].name != name {
      assert table[i] == RowOf(files, i);
    }
    if table[p].Entry? {
      assert files[p] in files;
    } else {
      assert p == |files|;
    }
  }
}
