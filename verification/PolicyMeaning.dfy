/** The policy as rules: what is allowed in one field of a tree, in a call and in a function
    definition, stated without the order in which the checker looks. */
module PolicyMeaning {
  import opened Wrappers
  import opened Policy

  // -------------------------------------------------------------------- what a tree reads as

  /** A text reads as itself, anything else as the empty text. */
  predicate ReadsAs(v: Json, s: string) {
    v == JString(s) || (!v.JString? && s == "")
  }

  predicate HasField(v: Json, key: string) {
    v.JObject? && key in v.fields
  }

  /** What a field reads as; a missing one reads as the empty text. */
  predicate FieldReads(v: Json, key: string, s: string) {
    if HasField(v, key) then ReadsAs(v.fields[key], s) else s == ""
  }

  /** What a String node reads as. */
  predicate NodeReads(v: Json, s: string) {
    if HasField(v, "String") then FieldReads(v.fields["String"], "sval", s) else s == ""
  }

  /** The parts of a name, one for each element and in their order. */
  predicate Spells(v: Json, parts: seq<string>) {
    if v.JArray? then |v.items| == |parts| && forall i | 0 <= i < |parts| :: NodeReads(v.items[i], parts[i])
    else parts == []
  }

  lemma FieldReadsExact(v: Json, key: string, s: string)
    ensures Str(Get(Fields(v), key)) == s <==> FieldReads(v, key, s)
  {
  }

  lemma NodeReadsExact(v: Json, s: string)
    ensures StringNode(v) == s <==> NodeReads(v, s)
  {
  }

  /** What the checker reads as a name, and nothing else. */
  lemma NamesExact(v: Json, parts: seq<string>)
    ensures Names(v) == parts <==> Spells(v, parts)
  {
    forall i | v.JArray? && 0 <= i < |v.items| && i < |parts|
      ensures StringNode(v.items[i]) == parts[i] <==> NodeReads(v.items[i], parts[i])
    {
      NodeReadsExact(v.items[i], parts[i]);
    }
    hide StringNode, NodeReads;
    if Names(v) == parts && v.JArray? {
      forall i | 0 <= i < |parts| ensures NodeReads(v.items[i], parts[i]) {
        assert Names(v)[i] == StringNode(v.items[i]);
      }
    }
  }

  // ------------------------------------------------------------------------------ fields

  /** A key with a capital first letter that ends in Stmt names a kind of statement. */
  predicate NamesStatement(key: string) {
    |key| >= 4 && key[|key| - 4..] == "Stmt" && 'A' <= key[0] <= 'Z'
  }

  /** What one field may hold, function names apart. */
  predicate FieldAllowed(c: Rules, key: string, value: Json) {
    && (NamesStatement(key) ==> key in c.statements)
    && (key == "DropStmt" ==> FieldIn(value, "removeType", c.objects))
    && (key == "RenameStmt" ==> FieldIn(value, "renameType", c.objects))
    && (key in {"CommentStmt", "AlterTableStmt"} ==> FieldIn(value, "objtype", c.objects))
    && (key == "AlterTableCmd" ==> FieldIn(value, "subtype", c.alterations))
    && (key == "RangeVar" ==> !FieldIn(value, "relpersistence", {"t", "u"}))
    && (key == "relpersistence" ==> value != JString("t") && value != JString("u"))
    && (key == "IndexStmt" ==>
          && FieldReads(value, "tableSpace", "")
          && !(HasField(value, "concurrent") && value.fields["concurrent"] == JBool(true)))
    && (key == "tablespacename" ==> ReadsAs(value, ""))
    && (key == "DefElem" ==> !FieldIn(value, "defname", {"set", "support"}))
  }

  /** A field that reads as one of some words. */
  predicate FieldIn(v: Json, key: string, words: set<string>) {
    exists s <- words :: FieldReads(v, key, s)
  }

  lemma FieldInExact(v: Json, key: string, words: set<string>)
    ensures Str(Get(Fields(v), key)) in words <==> FieldIn(v, key, words)
  {
    FieldReadsExact(v, key, Str(Get(Fields(v), key)));
    forall s <- words ensures FieldReads(v, key, s) <==> Str(Get(Fields(v), key)) == s {
      FieldReadsExact(v, key, s);
    }
  }

  lemma FieldExact(c: Rules, key: string, value: Json)
    ensures CheckField(c, key, value) == None <==> FieldAllowed(c, key, value)
  {
    assert StatementAllowed(c, key) <==> (NamesStatement(key) ==> key in c.statements);
    FieldInExact(value, "removeType", c.objects);
    FieldInExact(value, "renameType", c.objects);
    FieldInExact(value, "objtype", c.objects);
    FieldInExact(value, "subtype", c.alterations);
    FieldInExact(value, "defname", {"set", "support"});
    FieldReadsExact(value, "tableSpace", "");
    TextsExact(value);
    hide StatementAllowed, NamesStatement, Str, FieldIn, FieldReads, Unlogged;
  }

  lemma TextsExact(value: Json)
    ensures Unlogged(Get(Fields(value), "relpersistence")) <==> FieldIn(value, "relpersistence", {"t", "u"})
    ensures Unlogged(value) <==> value == JString("t") || value == JString("u")
    ensures Str(value) != "" <==> !ReadsAs(value, "")
    ensures Get(Fields(value), "concurrent") == JBool(true) <==>
            HasField(value, "concurrent") && value.fields["concurrent"] == JBool(true)
  {
    if Unlogged(Get(Fields(value), "relpersistence")) {
      assert FieldReads(value, "relpersistence", Str(Get(Fields(value), "relpersistence")));
    }
  }

  // ------------------------------------------------------------------------------- calls

  /** The names a map permits. */
  function Permitted(local: Local): set<string> {
    set n | n in local && local[n]
  }

  /** A call that is plain or qualified by the islet's schema or pg_catalog, and names a
      permitted function (not under pg_catalog) or one of the allowlist (not under the
      schema). */
  predicate CallAllowed(c: Rules, names: set<string>, parts: seq<string>) {
    || (|parts| == 1 && (parts[0] in names || (parts[0] in c.builtins && c.schema != "")))
    || (|parts| == 2 && parts[0] in {"", "pg_catalog", c.schema}
        && ((parts[0] != "pg_catalog" && parts[1] in names) || (parts[0] != c.schema && parts[1] in c.builtins)))
  }

  lemma CallExact(c: Rules, local: Local, parts: seq<string>)
    ensures CheckCall(c, local, parts) == None <==> CallAllowed(c, Permitted(local), parts)
  {
  }

  /** Keys whose fields name a function that is called, and the field `funcname` itself. */
  predicate CallsAllowed(c: Rules, names: set<string>, key: string, value: Json) {
    && (key in {"FuncCall", "CreateTrigStmt"} ==> CallAllowed(c, names, Names(Get(Fields(value), "funcname"))))
    && (key == "funcname" ==> CallAllowed(c, names, Names(value)))
  }

  predicate MakesCall(key: string) {
    key in {"FuncCall", "CreateTrigStmt", "funcname"}
  }

  lemma CallsExact(c: Rules, local: Local, key: string, value: Json)
    ensures CallIn(key, value).Some? <==> MakesCall(key)
    ensures (CallIn(key, value).Some? ==> CheckCall(c, local, CallIn(key, value).value) == None) <==>
            CallsAllowed(c, Permitted(local), key, value)
  {
    if CallIn(key, value).Some? {
      CallExact(c, local, CallIn(key, value).value);
    }
    hide CheckCall, CallAllowed;
  }

  // ------------------------------------------------------------------------- definitions

  function LastName(parts: seq<string>): string {
    if parts == [] then "" else parts[|parts| - 1]
  }

  /** The name in a definition, or in a call. */
  function NameOf(value: Json): string {
    LastName(Names(Get(Fields(value), "funcname")))
  }

  function OptionFields(opt: Json): map<string, Json> {
    Fields(Get(Fields(opt), "DefElem"))
  }

  predicate IsOption(opt: Json, name: string) {
    Str(Get(OptionFields(opt), "defname")) == name
  }

  /** The last of the options of this name. */
  function LastOption(opts: seq<Json>, name: string): Option<map<string, Json>> {
    if opts == [] then None
    else if IsOption(opts[|opts| - 1], name) then Some(OptionFields(opts[|opts| - 1]))
    else LastOption(opts[..|opts| - 1], name)
  }

  /** The pieces of an AS clause. */
  function AsItems(d: map<string, Json>): seq<Json> {
    Items(Get(Fields(Get(Fields(Get(d, "arg")), "List")), "items"))
  }

  function LanguageOr(opts: seq<Json>, lang: string): string {
    match LastOption(opts, "language")
    case None => lang
    case Some(d) => StringNode(Get(d, "arg"))
  }

  function TextOr(opts: seq<Json>, body: string): string {
    match LastOption(opts, "as")
    case None => body
    case Some(d) => if |AsItems(d)| == 1 then StringNode(AsItems(d)[0]) else body
  }

  /** No SET and no SUPPORT, and every AS is a single text. */
  predicate OptionLegal(opt: Json) {
    !IsOption(opt, "set") && !IsOption(opt, "support") && (IsOption(opt, "as") ==> |AsItems(OptionFields(opt))| == 1)
  }

  predicate OptionsLegal(opts: seq<Json>) {
    forall opt <- opts :: OptionLegal(opt)
  }

  lemma OptionsLegalFront(opts: seq<Json>)
    requires opts != []
    ensures OptionsLegal(opts) <==> OptionLegal(opts[0]) && OptionsLegal(opts[1..])
  {
    hide OptionLegal;
    assert opts == [opts[0]] + opts[1..];
  }

  /** One turn of the loop over the options. */
  lemma OptionsStep(opts: seq<Json>, lang: string, body: string)
    requires opts != []
    ensures !OptionLegal(opts[0]) ==> Options(opts, lang, body).Err?
    ensures OptionLegal(opts[0]) ==>
              Options(opts, lang, body) == Options(opts[1..], LanguageOr([opts[0]], lang), TextOr([opts[0]], body))
  {
    assert [opts[0]][..0] == [];
    assert LastOption([opts[0]][..0], "language") == None && LastOption([opts[0]][..0], "as") == None;
    hide StringNode;
  }

  lemma {:induction false} LastOptionFront(opts: seq<Json>, name: string)
    requires opts != []
    ensures LastOption(opts, name) ==
            if LastOption(opts[1..], name).Some? then LastOption(opts[1..], name)
            else if IsOption(opts[0], name) then Some(OptionFields(opts[0])) else None
    decreases |opts|
  {
    if |opts| == 1 {
      assert opts[..0] == [] && opts[1..] == [];
    } else {
      var n := |opts| - 1;
      assert opts[1..][n - 1] == opts[n] && opts[1..][..n - 1] == opts[..n][1..];
      hide IsOption, OptionFields;
      LastOptionFront(opts[..n], name);
    }
  }

  lemma {:induction false} OptionsExact(opts: seq<Json>, lang: string, body: string)
    ensures Options(opts, lang, body).Ok? <==> OptionsLegal(opts)
    ensures Options(opts, lang, body).Ok? ==>
              Options(opts, lang, body).value == (LanguageOr(opts, lang), TextOr(opts, body))
    decreases |opts|
  {
    if opts != [] {
      LastOptionFront(opts, "language");
      LastOptionFront(opts, "as");
      LastOptionFront([opts[0]], "language");
      LastOptionFront([opts[0]], "as");
      assert [opts[0]][1..] == [];
      OptionsLegalFront(opts);
      OptionsStep(opts, lang, body);
      hide Options, OptionsLegal, StringNode, IsOption, LastOption;
      OptionsExact(opts[1..], LanguageOr([opts[0]], lang), TextOr([opts[0]], body));
      if OptionsLegal(opts) {
        LastTextIsOne(opts[1..]);
      }
    }
  }

  /** Where the options are legal, the last AS is a text. */
  lemma {:induction false} LastTextIsOne(opts: seq<Json>)
    requires OptionsLegal(opts)
    ensures LastOption(opts, "as").Some? ==> |AsItems(LastOption(opts, "as").value)| == 1
    decreases |opts|
  {
    if opts != [] {
      assert OptionLegal(opts[|opts| - 1]);
      LastTextIsOne(opts[..|opts| - 1]);
    }
  }

  function OptionsOf(value: Json): seq<Json> {
    Items(Get(Fields(value), "options"))
  }

  /** The text body of a definition: that of its last AS clause. */
  function TextOf(value: Json): string {
    TextOr(OptionsOf(value), "")
  }

  /** A plain name, or one qualified by the islet's schema. */
  predicate IsLocalName(c: Rules, value: Json) {
    HasField(value, "funcname")
    && (|| Spells(value.fields["funcname"], [NameOf(value)])
        || Spells(value.fields["funcname"], [c.schema, NameOf(value)]))
  }

  lemma LocalNameExact(c: Rules, value: Json)
    ensures var parts := Names(Get(Fields(value), "funcname"));
            IsLocalName(c, value) <==> |parts| == 1 || (|parts| == 2 && parts[0] == c.schema)
  {
    var parts := Names(Get(Fields(value), "funcname"));
    if HasField(value, "funcname") {
      var v := value.fields["funcname"];
      NamesExact(v, parts);
      NamesExact(v, [NameOf(value)]);
      NamesExact(v, [c.schema, NameOf(value)]);
      hide Names, Spells;
      assert |parts| == 1 ==> parts == [NameOf(value)];
      assert |parts| == 2 ==> parts == [parts[0], NameOf(value)];
    }
  }

  /** A definition that is local to the islet, in SQL, without settings and hooks, and has a
      text body or one in `sql_body`. */
  predicate DefinitionLegal(c: Rules, value: Json) {
    && IsLocalName(c, value)
    && OptionsLegal(OptionsOf(value))
    && LanguageOr(OptionsOf(value), "") == "sql"
    && (TextOf(value) != "" || Get(Fields(value), "sql_body") != JNull)
  }

  lemma DefineMeaning(c: Rules, value: Json)
    ensures Define(c, Fields(value)).Ok? <==> DefinitionLegal(c, value)
    ensures DefinitionLegal(c, value) ==> Define(c, Fields(value)).value == Definition(NameOf(value), TextOf(value))
  {
    OptionsExact(OptionsOf(value), "", "");
    LocalNameExact(c, value);
    hide Options, OptionsLegal, LanguageOr, TextOr, Names, IsLocalName;
  }
}
