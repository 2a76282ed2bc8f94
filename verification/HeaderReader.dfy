/** How a compiler reads the generated header, as far as the table and the include
    guard go: declarations of strings, a structure, an array of pointers into them. */
module HeaderReader {
  import opened SharedTypes
  import opened CxxLexer
  import opened EmbeddedData

  // ---- Identifiers -------------------------------------------------------------------

  predicate IsIdent(c: char) {
    'a' <= c <= 'z' || 'A' <= c <= 'Z' || '0' <= c <= '9' || c == '_'
  }

  /** Length of the longest prefix of identifier characters. */
  function IdentRun(s: string): (n: nat)
    ensures n <= |s|
    ensures forall i :: 0 <= i < n ==> IsIdent(s[i])
    ensures n < |s| ==> !IsIdent(s[n])
  {
    if s != "" && IsIdent(s[0]) then 1 + IdentRun(s[1..]) else 0
  }

  function ReadIdent(s: string): (r: Option<Lexed<string>>)
    ensures r.Some? ==> |r.value.rest| < |s|
  {
    var n := IdentRun(s);
    if n == 0 then None else Some(Lexed(s[..n], s[n..]))
  }

  ghost predicate AllIdent(s: string) {
    forall i :: 0 <= i < |s| ==> IsIdent(s[i])
  }

  lemma ReadIdentOwn(word: string, rest: string)
    requires word != "" && AllIdent(word) && rest != "" && !IsIdent(rest[0])
    ensures ReadIdent(word + rest) == Some(Lexed(word, rest))
  {
    hide IdentRun;
    var s := word + rest;
    var n := IdentRun(s);
    assert s[|word|] == rest[0];
    assert forall i :: 0 <= i < |word| ==> IsIdent(s[i]);
    assert n == |word|;
    assert s[..n] == word && s[n..] == rest;
  }

  // ---- Declarations ---------------------------------------------------------------------

  /** A variable of type std::string and its value. */
  datatype Decl = Decl(ident: string, value: string)

  /** std::string(literal, n): the first n characters of the literal's array,
      which ends with a null character. */
  function Constructed(flat: string, n: nat): (r: Option<string>) {
    if n <= |flat| + 1 then Some((flat + [0 as char])[..n]) else None
  }

  /** The arguments of the constructor, up to the end of the declaration. */
  function ReadData(s: string): (r: Option<Lexed<string>>)
    ensures r.Some? ==> |r.value.rest| < |s|
  {
    var lits :- ReadLiterals(s);
    var a :- Expect(lits.rest, ",");
    var n :- LexNumber(SkipSpace(a));
    var b :- Expect(n.rest, ");\n\n");
    var v :- Constructed(Flatten(lits.value), n.value);
    assert |lits.rest| < |SkipSpace(s)| <= |s|;
    Some(Lexed(v, b))
  }

  /** A literal, or a constructor with literals and a length. */
  function ReadInit(s: string): (r: Option<Lexed<string>>)
    ensures r.Some? ==> |r.value.rest| < |s|
  {
    if Expect(s, "\"").Some? then
      var text :- LexChars(Expect(s, "\"").value);
      var rest :- Expect(text.rest, ";\n");
      Some(Lexed(text.value, rest))
    else
      var args :- Expect(s, "std::string(");
      ReadData(args)
  }

  const DECL := "static const std::string "

  function ReadDecl(s: string): (r: Option<Lexed<Decl>>)
    ensures r.Some? ==> |r.value.rest| < |s|
  {
    var a :- Expect(s, DECL);
    var ident :- ReadIdent(a);
    var b :- Expect(ident.rest, " = ");
    var value :- ReadInit(b);
    Some(Lexed(Decl(ident.value, value.value), value.rest))
  }

  function ReadDecls(s: string): (r: Option<Lexed<seq<Decl>>>)
    decreases |s|
  {
    if Expect(s, DECL).None? then Some(Lexed([], s))
    else
      var d :- ReadDecl(s);
      var more :- ReadDecls(d.rest);
      Some(Lexed([d.value] + more.value, more.rest))
  }

  /** The variable with the given name. */
  function Resolve(decls: seq<Decl>, ident: string): (r: Option<Decl>)
    ensures r.Some? ==> r.value in decls && r.value.ident == ident
  {
    if decls == [] then None
    else if decls[0].ident == ident then Some(decls[0])
    else Resolve(decls[1..], ident)
  }

  // ---- The structure ------------------------------------------------------------------------

  /** The members of a structure, all pointers to strings. */
  function ReadMembers(s: string): (r: Option<Lexed<seq<string>>>)
    decreases |s|
  {
    if Expect(s, "}").Some? then Some(Lexed([], Expect(s, "}").value))
    else
      var a :- Expect(s, "  const std::string *");
      var member :- ReadIdent(a);
      var b :- Expect(member.rest, ";\n");
      var more :- ReadMembers(b);
      Some(Lexed([member.value] + more.value, more.rest))
  }

  /** The structure and the array of it that follows, under the names that the lookup
      function uses: its members. */
  function ReadStruct(s: string): (r: Option<Lexed<seq<string>>>) {
    var tag :- ReadTag(s);
    var members :- ReadMembers(tag.rest);
    var table :- ReadArray(members.rest);
    if tag.value == "embedded_file" && table.value == "embedded_files" then Some(Lexed(members.value, table.rest))
    else None
  }

  function ReadTag(s: string): (r: Option<Lexed<string>>) {
    var a :- Expect(s, "static const struct ");
    var tag :- ReadIdent(a);
    var b :- Expect(tag.rest, " {\n");
    Some(Lexed(tag.value, b))
  }

  function ReadArray(s: string): (r: Option<Lexed<string>>) {
    var a :- Expect(s, " ");
    var table :- ReadIdent(a);
    var b :- Expect(table.rest, "[] = {\n");
    Some(Lexed(table.value, b))
  }

  // ---- The table -----------------------------------------------------------------------------

  datatype Pointer = To(ident: string) | NullPointer

  function ReadPointer(s: string): (r: Option<Lexed<Pointer>>)
    ensures r.Some? ==> |r.value.rest| < |s|
  {
    if Expect(s, "NULL").Some? then Some(Lexed(NullPointer, Expect(s, "NULL").value))
    else
      var a :- Expect(s, "&");
      var ident :- ReadIdent(a);
      Some(Lexed(To(ident.value), ident.rest))
  }

  function ReadPointers(s: string): (r: Option<Lexed<seq<Pointer>>>)
    ensures r.Some? ==> |r.value.rest| < |s|
    decreases |s|
  {
    var p :- ReadPointer(s);
    if Expect(p.rest, ", ").Some? then
      var more :- ReadPointers(Expect(p.rest, ", ").value);
      Some(Lexed([p.value] + more.value, more.rest))
    else Some(Lexed([p.value], p.rest))
  }

  /** A variable that a row points at, and its value. */
  datatype Var = Var(ident: string, value: string)

  datatype Row = Entry(name: Var, data: Var) | Null

  /** The pointer that initialises the member called `member`. */
  function Field(members: seq<string>, pointers: seq<Pointer>, member: string): (r: Option<Pointer>)
    requires |members| == |pointers|
  {
    if members == [] then None
    else if members[0] == member then Some(pointers[0])
    else Field(members[1..], pointers[1..], member)
  }

  /** A row by the members `name` and `data` that the lookup function uses. */
  function MakeRow(members: seq<string>, pointers: seq<Pointer>, decls: seq<Decl>): (r: Option<Row>)
    ensures r.Some? && r.value.Entry? ==>
      Resolve(decls, r.value.name.ident) == Some(Decl(r.value.name.ident, r.value.name.value))
  {
    if |members| != |pointers| then None
    else
      var name :- Field(members, pointers, "name");
      var data :- Field(members, pointers, "data");
      match (name, data)
      case (NullPointer, NullPointer) => Some(Null)
      case (To(n), To(d)) =>
        var nameDecl :- Resolve(decls, n);
        var dataDecl :- Resolve(decls, d);
        Some(Entry(Var(n, nameDecl.value), Var(d, dataDecl.value)))
      case _ => None
  }

  /** The rows up to the one without a comma after it. */
  function ReadRows(s: string, members: seq<string>, decls: seq<Decl>): (r: Option<Lexed<seq<Row>>>)
    ensures r.Some? ==> forall row :: row in r.value.value && row.Entry? ==>
      Resolve(decls, row.name.ident) == Some(Decl(row.name.ident, row.name.value))
    decreases |s|
  {
    var a :- Expect(s, "  {");
    var pointers :- ReadPointers(a);
    var row :- MakeRow(members, pointers.value, decls);
    if Expect(pointers.rest, "},\n").Some? then
      var more :- ReadRows(Expect(pointers.rest, "},\n").value, members, decls);
      Some(Lexed([row] + more.value, more.rest))
    else
      var rest :- Expect(pointers.rest, "}\n");
      Some(Lexed([row], rest))
  }

  // ---- The whole header -----------------------------------------------------------------------

  /** The first lines of an include guard, and the header for strings. */
  function ReadGuard(s: string): (r: Option<Lexed<string>>) {
    var a :- Expect(s, "#ifndef ");
    var guard :- ReadIdent(a);
    var b :- Expect(guard.rest, "\n");
    var c :- Expect(b, "#define ");
    var defined :- ReadIdent(c);
    var d :- Expect(defined.rest, "\n\n");
    var e :- Expect(d, "#include <string>\n\n");
    if guard.value == defined.value then Some(Lexed(guard.value, e)) else None
  }

  /** The end: the text of the lookup function, and the end of the guard, on which only a
      comment may follow. */
  function ReadEnd(s: string, code: string): (r: Option<string>) {
    var a :- Expect(s, "};\n\n");
    var b :- Expect(a, code);
    var c :- Expect(b, "\n");
    var d :- Expect(c, "#endif /* ");
    var guard :- ReadIdent(d);
    if guard.rest == " */\n" then Some(guard.value) else None
  }

  /** The table `embedded_files` that a compiler makes of the header whose lookup
      function has the text `code`. */
  function ReadHeader(s: string, code: string): (r: Option<seq<Row>>) {
    var guard :- ReadGuard(s);
    var decls :- ReadDecls(guard.rest);
    var members :- ReadStruct(decls.rest);
    var rows :- ReadRows(members.rest, members.value, decls.value);
    var end :- ReadEnd(rows.rest, code);
    Some(rows.value)
  }
}
