/** The planning half of TrainDBPrepareImpl.executeIncremental: the rewrite of
    the select list into a per-partition projection, the split of the FROM
    name into schema and table, the dialect taken from the connection URL,
    the partition lookup, and the one SQL string emitted per partition. */
module Plan {
  import opened Common
  import opened Merge

  // ---------------------------------------------------------------------
  // The parsed statement, as far as the planner looks at it.

  /** The first operand of a call: an identifier, or anything else. */
  datatype Operand = Ident(name: string) | OtherOperand

  /** A select-list item: a function call (SqlBasicCall) or anything else. */
  datatype SelectItem = Call(op: string, operands: seq<Operand>) | NotCall

  /** The FROM clause: a (possibly dotted) identifier, another node, or none. */
  datatype FromClause = FromName(name: string) | FromOther | NoFrom

  datatype Statement = Select(items: seq<SelectItem>, from: FromClause) | OtherStatement

  // ---------------------------------------------------------------------
  // Select-list rewrite.

  /** The aggregate an operator name denotes, compared ignoring case. */
  function KindOf(op: string): (k: Option<AggKind>)
    ensures k.Some? ==> Lower(op) == Lower(Label(k.value))
  {
    var l := Lower(op);
    if l == "count" then Some(Count)
    else if l == "sum" then Some(Sum)
    else if l == "min" then Some(Min)
    else if l == "max" then Some(Max)
    else if l == "avg" then Some(Avg)
    else None
  }

  /** `equalsIgnoreCase` in both directions: an operator names an aggregate
      exactly when it equals that aggregate's name ignoring case. */
  lemma KindOfIff(op: string, k: AggKind)
    ensures KindOf(op) == Some(k) <==> Lower(op) == Lower(Label(k))
  {
  }

  /** The projection an aggregate over column `c` becomes in every partition
      query; AVG is computed from a partial sum and a partial count. */
  function Projection(k: AggKind, c: string): string
  {
    match k
    case Count => "count(" + c + ")"
    case Sum => "sum(" + c + ")"
    case Min => "min(" + c + ")"
    case Max => "max(" + c + ")"
    case Avg => "sum(" + c + "), count(" + c + ")"
  }

  /** One item: a non-call emits nothing; a call's first operand is cast to an
      identifier before its operator is looked at. */
  function ItemRewrite(item: SelectItem): Result<Option<(AggKind, string)>>
  {
    match item
    case NotCall => Success(None)
    case Call(op, operands) =>
      if |operands| == 0 then Failure(IndexOutOfBounds)
      else if operands[0].OtherOperand? then Failure(ClassCast)
      else match KindOf(op)
        case None => Failure(NotAggregate)
        case Some(k) => Success(Some((k, Projection(k, operands[0].name))))
  }

  /** What the select loop has produced after some items: the aggregate
      calls recorded, the column list built, and the exception that stopped
      it, if any. */
  datatype Rewritten = Rewritten(aggs: seq<AggKind>, columns: string, fault: Option<Fault>)

  function Rewrite(items: seq<SelectItem>): Rewritten
  {
    if items == [] then Rewritten([], "", None)
    else
      var prev := Rewrite(items[..|items| - 1]);
      if prev.fault.Some? then prev
      else
        var cols := if |items| > 1 then prev.columns + " ," else prev.columns;
        match ItemRewrite(items[|items| - 1])
        case Failure(f) => Rewritten(prev.aggs, cols, Some(f))
        case Success(None) => Rewritten(prev.aggs, cols, None)
        case Success(Some(p)) => Rewritten(prev.aggs + [p.0], cols + p.1, None)
  }

  /** The text item i contributes to the column list. */
  function ItemText(item: SelectItem): string
  {
    match ItemRewrite(item)
    case Success(Some(p)) => p.1
    case _ => ""
  }

  function Texts(items: seq<SelectItem>): (r: seq<string>)
    ensures |r| == |items|
    ensures forall i :: 0 <= i < |items| ==> r[i] == ItemText(items[i])
  {
    if items == [] then [] else Texts(items[..|items| - 1]) + [ItemText(items[|items| - 1])]
  }

  /** The aggregate kinds of the call items, in select-list order. */
  function CallKinds(items: seq<SelectItem>): seq<AggKind>
  {
    if items == [] then []
    else
      var last := items[|items| - 1];
      CallKinds(items[..|items| - 1]) +
        (if last.Call? && KindOf(last.op).Some? then [KindOf(last.op).value] else [])
  }

  /** On success the recorded calls are the kinds of the call items, in
      order: entry i of aggCalls is the aggregate of the i-th call. */
  lemma {:induction false} RewriteRecordsKinds(items: seq<SelectItem>)
    requires Rewrite(items).fault.None?
    ensures Rewrite(items).aggs == CallKinds(items)
  {
    if items != [] {
      RewriteSnocFault(items);
      RewriteRecordsKinds(items[..|items| - 1]);
    }
  }

  /** Number of items that are aggregate calls. */
  function CallCount(items: seq<SelectItem>): nat
  {
    if items == [] then 0
    else CallCount(items[..|items| - 1]) + (if items[|items| - 1].Call? then 1 else 0)
  }

  /** The rewrite fails exactly when some item fails on its own. */
  lemma {:induction false} RewriteFailsIffSomeItemFails(items: seq<SelectItem>)
    ensures Rewrite(items).fault.None? <==> forall i :: 0 <= i < |items| ==> ItemRewrite(items[i]).Success?
  {
    if items != [] {
      var n := |items|;
      var init := items[..n - 1];
      RewriteFailsIffSomeItemFails(init);
      RewriteSnocFault(items);
      if Rewrite(items).fault.None? {
        forall i | 0 <= i < n ensures ItemRewrite(items[i]).Success? {
          if i < n - 1 {
            assert items[i] == init[i];
          }
        }
      } else if Rewrite(init).fault.Some? {
        var i :| 0 <= i < |init| && !ItemRewrite(init[i]).Success?;
        assert items[i] == init[i];
      }
    }
  }

  /** One more item: the rewrite is still clean exactly when it was before
      and the new item rewrites. */
  lemma RewriteSnocFault(items: seq<SelectItem>)
    requires items != []
    ensures Rewrite(items).fault.None? <==>
            Rewrite(items[..|items| - 1]).fault.None? && ItemRewrite(items[|items| - 1]).Success?
  {
  }

  /** The exception raised is that of the first failing item, and the
      aggregate calls recorded are those of the items before it. */
  lemma {:induction false} RewriteStopsAtFirstFailure(items: seq<SelectItem>)
    requires Rewrite(items).fault.Some?
    ensures exists i :: 0 <= i < |items| && Rewrite(items[..i]).fault.None?
                        && ItemRewrite(items[i]) == Failure(Rewrite(items).fault.value)
                        && Rewrite(items).aggs == Rewrite(items[..i]).aggs
  {
    var n := |items|;
    var init := items[..n - 1];
    assert items[..n] == items;
    if Rewrite(init).fault.Some? {
      RewriteStopsAtFirstFailure(init);
      var i :| 0 <= i < |init| && Rewrite(init[..i]).fault.None?
               && ItemRewrite(init[i]) == Failure(Rewrite(init).fault.value)
               && Rewrite(init).aggs == Rewrite(init[..i]).aggs;
      assert init[..i] == items[..i] && init[i] == items[i];
    } else {
      assert items[..n - 1] == init;
    }
  }

  /** On success: one aggregate per call item, and the column list is the
      items' projections separated by " ,", non-calls contributing "". */
  lemma {:induction false} RewriteShape(items: seq<SelectItem>)
    requires Rewrite(items).fault.None?
    ensures |Rewrite(items).aggs| == CallCount(items)
    ensures Rewrite(items).columns == Join(Texts(items), " ,")
  {
    if items != [] {
      var init := items[..|items| - 1];
      RewriteShape(init);
      assert Texts(items)[..|items| - 1] == Texts(init);
      if |items| == 1 {
        assert init == [];
      }
    }
  }

  /** AVG records one call (so one header label) but projects two columns. */
  lemma AvgProjectsSumAndCount(c: string)
    ensures Rewrite([Call("AVG", [Ident(c)])]) == Rewritten([Avg], "sum(" + c + "), count(" + c + ")", None)
  {
    var items := [Call("AVG", [Ident(c)])];
    assert items[..0] == [];
    assert Lower("AVG") == "avg";
  }

  /** A call that is not an aggregate stops the rewrite. */
  lemma UpperOtherFunctionRejected(c: string)
    ensures Rewrite([Call("COUNT", [Ident(c)]), Call("UPPER", [Ident(c)])]).fault == Some(NotAggregate)
    ensures Rewrite([Call("COUNT", [Ident(c)]), Call("UPPER", [Ident(c)])]).aggs == [Count]
  {
    var items := [Call("COUNT", [Ident(c)]), Call("UPPER", [Ident(c)])];
    assert items[..1] == [Call("COUNT", [Ident(c)])];
    CountOfOneColumn(c);
    UpperIsNoAggregate();
  }

  lemma CountOfOneColumn(c: string)
    ensures Rewrite([Call("COUNT", [Ident(c)])]) == Rewritten([Count], "count(" + c + ")", None)
  {
    var items := [Call("COUNT", [Ident(c)])];
    assert items[..0] == [];
    assert Lower("COUNT") == "count";
  }

  lemma UpperIsNoAggregate()
    ensures KindOf("UPPER") == None
  {
    assert Lower("UPPER") == "upper";
  }

  // ---------------------------------------------------------------------
  // FROM name: java.util.StringTokenizer with delimiters "[", "." and "]".

  predicate IsDelim(c: char)
  {
    c == '[' || c == '.' || c == ']'
  }

  predicate Plain(t: string)
  {
    forall i :: 0 <= i < |t| ==> !IsDelim(t[i])
  }

  /** The characters of `s` other than delimiters. */
  function Strip(s: string): (r: string)
    ensures Plain(r)
  {
    if s == [] then ""
    else if IsDelim(s[|s| - 1]) then Strip(s[..|s| - 1])
    else Strip(s[..|s| - 1]) + [s[|s| - 1]]
  }

  function Concat(ts: seq<string>): string
  {
    if ts == [] then "" else Concat(ts[..|ts| - 1]) + ts[|ts| - 1]
  }

  /** The tokens: maximal non-empty runs of non-delimiter characters. */
  function Tokens(s: string): (r: seq<string>)
    ensures forall i :: 0 <= i < |r| ==> r[i] != "" && Plain(r[i])
    ensures s != [] && !IsDelim(s[|s| - 1]) ==> r != []
  {
    if s == [] then []
    else
      var t := Tokens(s[..|s| - 1]);
      var c := s[|s| - 1];
      if IsDelim(c) then t
      else if |s| >= 2 && !IsDelim(s[|s| - 2]) then
        assert s[..|s| - 1] != [] && s[..|s| - 1][|s| - 2] == s[|s| - 2];
        t[..|t| - 1] + [t[|t| - 1] + [c]]
      else t + [[c]]
  }

  /** Tokenising loses exactly the delimiters. */
  lemma {:induction false} TokensCoverStripped(s: string)
    ensures Concat(Tokens(s)) == Strip(s)
  {
    if s != [] {
      var init := s[..|s| - 1];
      var c := s[|s| - 1];
      TokensCoverStripped(init);
      var t := Tokens(init);
      if !IsDelim(c) {
        if |s| >= 2 && !IsDelim(s[|s| - 2]) {
          assert init[|init| - 1] == s[|s| - 2];
          ConcatExtendLast(t, c);
        } else {
          ConcatSnoc(t, [c]);
        }
      }
    }
  }

  /** Extending the last token extends the concatenation. */
  lemma ConcatExtendLast(t: seq<string>, c: char)
    requires t != []
    ensures Concat(t[..|t| - 1] + [t[|t| - 1] + [c]]) == Concat(t) + [c]
  {
    var front, last := t[..|t| - 1], t[|t| - 1];
    ConcatSnoc(front, last + [c]);
    assert t == front + [last];
    ConcatSnoc(front, last);
    AppendAssoc(Concat(front), last, [c]);
  }

  lemma ConcatSnoc(ts: seq<string>, x: string)
    ensures Concat(ts + [x]) == Concat(ts) + x
  {
    assert (ts + [x])[..|ts|] == ts;
  }

  lemma {:induction false} TokensOfPlain(s: string)
    requires s != [] && Plain(s)
    ensures Tokens(s) == [s]
  {
    var init := s[..|s| - 1];
    if |s| > 1 {
      assert Plain(init) by {
        forall i | 0 <= i < |init| ensures !IsDelim(init[i]) { assert init[i] == s[i]; }
      }
      TokensOfPlain(init);
      assert !IsDelim(s[|s| - 2]);
      assert s == init + [s[|s| - 1]];
    } else {
      assert init == [] && [s[0]] == s;
    }
  }

  /** A run of plain characters after a delimiter is one more token. */
  lemma {:induction false} TokensAfterDelimiter(s: string, b: string)
    requires |s| > 0 && IsDelim(s[|s| - 1]) && b != [] && Plain(b)
    ensures Tokens(s + b) == Tokens(s) + [b]
    decreases |b|
  {
    var sb := s + b;
    if |b| == 1 {
      assert sb[..|sb| - 1] == s;
      assert sb[|sb| - 2] == s[|s| - 1] && sb[|sb| - 1] == b[0];
      assert [b[0]] == b;
    } else {
      var b' := b[..|b| - 1];
      TokensAfterDelimiter(s, b');
      assert sb[..|sb| - 1] == s + b';
      assert sb[|sb| - 2] == b[|b| - 2];
      var t := Tokens(s + b');
      assert t[..|t| - 1] == Tokens(s);
      assert b' + [b[|b| - 1]] == b;
    }
  }

  /** schemaName and tblname: one token names the table, two name schema
      and table, any other count leaves both null. */
  function TableRef(name: string): (r: (Option<string>, Option<string>))
    ensures |Tokens(name)| == 1 ==> r == (None, Some(Tokens(name)[0]))
    ensures |Tokens(name)| == 2 ==> r == (Some(Tokens(name)[0]), Some(Tokens(name)[1]))
    ensures |Tokens(name)| != 1 && |Tokens(name)| != 2 ==> r == (None, None)
  {
    var t := Tokens(name);
    if |t| == 1 then (None, Some(t[0]))
    else if |t| == 2 then (Some(t[0]), Some(t[1]))
    else (None, None)
  }

  /** "schema.table" names schema and table; an unqualified name has no schema. */
  lemma QualifiedName(schema: string, table: string)
    requires schema != [] && Plain(schema) && table != [] && Plain(table)
    ensures TableRef(schema + "." + table) == (Some(schema), Some(table))
    ensures TableRef(table) == (None, Some(table))
  {
    TokensOfPlain(schema);
    assert Tokens(schema + ".") == Tokens(schema) by {
      assert (schema + ".")[..|schema|] == schema;
    }
    TokensAfterDelimiter(schema + ".", table);
    TokensOfPlain(table);
  }

  // ---------------------------------------------------------------------
  // Dialect: url.split(":")[1].

  /** All ':'-separated fields of `s`, empty ones included. */
  function Fields(s: string): (r: seq<string>)
    ensures |r| >= 1
  {
    if s == [] then [""]
    else
      var f := Fields(s[..|s| - 1]);
      var c := s[|s| - 1];
      if c == ':' then f + [""]
      else f[..|f| - 1] + [f[|f| - 1] + [c]]
  }

  lemma {:induction false} FieldsOfColonFree(s: string)
    requires ':' !in s
    ensures Fields(s) == [s]
  {
    if s != [] {
      var init := s[..|s| - 1];
      assert ':' !in init by {
        forall i | 0 <= i < |init| ensures init[i] != ':' { assert init[i] == s[i]; }
      }
      FieldsOfColonFree(init);
      assert init + [s[|s| - 1]] == s;
    }
  }

  /** Joining the fields back with ':' gives the string again. */
  lemma {:induction false} FieldsRoundTrip(s: string)
    ensures Join(Fields(s), ":") == s
  {
    if s != [] {
      var init := s[..|s| - 1];
      FieldsRoundTrip(init);
      var f := Fields(init);
      var c := s[|s| - 1];
      if c == ':' {
        assert (f + [""])[..|f|] == f;
      } else {
        JoinExtendLast(f, ":", c);
      }
      assert init + [c] == s;
    }
  }

  /** Extending the last item extends the joined string. */
  lemma JoinExtendLast(f: seq<string>, sep: string, c: char)
    requires f != []
    ensures Join(f[..|f| - 1] + [f[|f| - 1] + [c]], sep) == Join(f, sep) + [c]
  {
    var front, last := f[..|f| - 1], f[|f| - 1];
    var r := front + [last + [c]];
    assert r[..|r| - 1] == front;
    if |f| > 1 {
      assert front[..|f| - 2] == f[..|f| - 2];
      AppendAssoc(Join(front, sep) + sep, last, [c]);
    }
  }

  /** String.split drops trailing empty fields. */
  function TrimTrailingEmpty(xs: seq<string>): (r: seq<string>)
    ensures |r| <= |xs| && r == xs[..|r|]
    ensures r != [] ==> r[|r| - 1] != ""
    ensures forall i :: |r| <= i < |xs| ==> xs[i] == ""
  {
    if xs == [] then []
    else if xs[|xs| - 1] == "" then TrimTrailingEmpty(xs[..|xs| - 1])
    else xs
  }

  /** String.split(":"): a string without ':' is its own only field; otherwise
      the fields with trailing empty ones removed. */
  function Split(s: string): seq<string>
  {
    if ':' !in s then [s] else TrimTrailingEmpty(Fields(s))
  }

  /** The second field of the URL; ArrayIndexOutOfBounds when there is none. */
  function Dialect(url: string): Result<string>
  {
    var f := Split(url);
    if |f| >= 2 then Success(f[1]) else Failure(IndexOutOfBounds)
  }

  /** The dialect is the second ':'-field, and the lookup fails exactly when
      every field after the first is empty. */
  lemma DialectIsSecondField(url: string)
    ensures Dialect(url).Success? <==> exists i :: 1 <= i < |Fields(url)| && Fields(url)[i] != ""
    ensures Dialect(url).Success? ==> Dialect(url).value == Fields(url)[1]
  {
    var xs := Fields(url);
    if ':' !in url {
      FieldsOfColonFree(url);
    } else {
      var r := TrimTrailingEmpty(xs);
      if |r| >= 2 {
        assert xs[|r| - 1] == r[|r| - 1] != "";
        assert r[1] == xs[1];
      } else {
        forall i | 1 <= i < |xs| ensures xs[i] == "" { }
      }
    }
  }

  /** Splitting at a colon splits the fields. */
  lemma {:induction false} FieldsAppend(s: string, t: string)
    ensures Fields(s + ":" + t) == Fields(s) + Fields(t)
    decreases |t|
  {
    if t == [] {
      assert s + ":" + t == s + [':'];
      FieldsSnoc(s, ':');
    } else {
      var t' := t[..|t| - 1];
      FieldsAppend(s, t');
      AppendKeepsFieldSplit(s + ":" + t', s, t', t[|t| - 1]);
      assert t == t' + [t[|t| - 1]];
      assert s + ":" + t == (s + ":" + t') + [t[|t| - 1]];
    }
  }

  /** Appending a character to both sides of an equation of fields keeps it. */
  lemma AppendKeepsFieldSplit(u: string, s: string, t: string, c: char)
    requires Fields(u) == Fields(s) + Fields(t)
    ensures Fields(u + [c]) == Fields(s) + Fields(t + [c])
  {
    if c == ':' {
      ColonKeepsFieldSplit(u, s, t);
    } else {
      FieldsSnoc(u, c);
      FieldsSnoc(t, c);
      ReplaceLast(Fields(s), Fields(t), c);
    }
  }

  lemma ColonKeepsFieldSplit(u: string, s: string, t: string)
    requires Fields(u) == Fields(s) + Fields(t)
    ensures Fields(u + [':']) == Fields(s) + Fields(t + [':'])
  {
    var fs, ft := Fields(s), Fields(t);
    FieldsSnoc(u, ':');
    FieldsSnoc(t, ':');
    AppendAssoc(fs, ft, [""]);
  }

  lemma ReplaceLast(f: seq<string>, g: seq<string>, c: char)
    requires g != []
    ensures (f + g)[..|f + g| - 1] + [(f + g)[|f + g| - 1] + [c]] == f + (g[..|g| - 1] + [g[|g| - 1] + [c]])
  {
    assert (f + g)[..|f + g| - 1] == f + g[..|g| - 1];
  }

  lemma FieldsSnoc(x: string, c: char)
    ensures c == ':' ==> Fields(x + [c]) == Fields(x) + [""]
    ensures c != ':' ==> Fields(x + [c]) == Fields(x)[..|Fields(x)| - 1] + [Fields(x)[|Fields(x)| - 1] + [c]]
  {
    assert (x + [c])[..|x|] == x;
  }

  /** A URL "jdbc:<dialect>" has that dialect, and its fields are just those two. */
  lemma DialectOfShortUrl(scheme: string, d: string)
    requires ':' !in scheme && ':' !in d && d != ""
    ensures Fields(scheme + ":" + d) == [scheme, d]
    ensures Dialect(scheme + ":" + d) == Success(d)
  {
    FieldsOfColonFree(scheme);
    FieldsOfColonFree(d);
    var u := scheme + ":" + d;
    FieldsAppend(scheme, d);
    assert u[|scheme|] == ':';
    SecondFieldIsDialect(u, d);
  }

  /** A URL "jdbc:<dialect>:..." has that dialect, whatever follows it. */
  lemma DialectOfUrl(scheme: string, d: string, rest: string)
    requires ':' !in scheme && ':' !in d && d != ""
    ensures Dialect(scheme + ":" + d) == Success(d)
    ensures Dialect(scheme + ":" + d + ":" + rest) == Success(d)
  {
    var u := scheme + ":" + d;
    DialectOfShortUrl(scheme, d);
    FieldsAppend(u, rest);
    var v := u + ":" + rest;
    assert v[|scheme|] == ':';
    SecondFieldIsDialect(v, d);
  }

  /** A URL with a ':' whose second field is the non-empty `d` has dialect `d`. */
  lemma SecondFieldIsDialect(url: string, d: string)
    requires ':' in url && d != ""
    requires |Fields(url)| >= 2 && Fields(url)[1] == d
    ensures Dialect(url) == Success(d)
  {
    var xs := Fields(url);
    var r := TrimTrailingEmpty(xs);
    assert r[1] == xs[1];
  }

  // ---------------------------------------------------------------------
  // Partition lookup.

  /** TrainDBPartition: the partition names of a table and its partition column. */
  datatype TablePartition = TablePartition(partitionNames: seq<string>, column: string)

  /** TrainDBSchema: a schema's name and its partition map keyed by table name. */
  datatype PartitionedSchema = PartitionedSchema(name: string, partitionMap: map<string, TablePartition>)

  predicate Matches(s: PartitionedSchema, schemaName: Option<string>, tblName: Option<string>)
  {
    schemaName == Some(s.name) && tblName.Some? && tblName.value in s.partitionMap
  }

  /** What the loop over the sub-schemas leaves in partitionList and
      partitionKey: every matching schema overwrites both, the key only for
      bigquery. */
  function Lookup(schemas: seq<PartitionedSchema>, schemaName: Option<string>, tblName: Option<string>,
                  dialect: string): (Option<seq<string>>, Option<string>)
  {
    if schemas == [] then (None, None)
    else
      var prev := Lookup(schemas[..|schemas| - 1], schemaName, tblName, dialect);
      var s := schemas[|schemas| - 1];
      if Matches(s, schemaName, tblName) then
        var p := s.partitionMap[tblName.value];
        (Some(p.partitionNames), if dialect == "bigquery" then Some(p.column) else prev.1)
      else prev
  }

  /** The loop over the sub-schemas. */
  method FindPartitions(schemas: seq<PartitionedSchema>, schemaName: Option<string>, tblName: Option<string>,
                        dialect: string) returns (partitionList: Option<seq<string>>, partitionKey: Option<string>)
    ensures (partitionList, partitionKey) == Lookup(schemas, schemaName, tblName, dialect)
  {
    partitionList, partitionKey := None, None;
    for i := 0 to |schemas|
      invariant (partitionList, partitionKey) == Lookup(schemas[..i], schemaName, tblName, dialect)
    {
      assert schemas[..i + 1][..i] == schemas[..i];
      var s := schemas[i];
      if schemaName.None? || s.name != schemaName.value {
        continue;
      }
      if tblName.Some? && tblName.value in s.partitionMap {
        partitionList := Some(s.partitionMap[tblName.value].partitionNames);
        if dialect == "bigquery" {
          partitionKey := Some(s.partitionMap[tblName.value].column);
        }
      }
    }
    assert schemas[..|schemas|] == schemas;
  }

  /** The list found is that of the last schema with the wanted name whose map
      has the table; without such a schema there is none. */
  lemma {:induction false} LookupFindsLastMatch(schemas: seq<PartitionedSchema>, schemaName: Option<string>,
                                                tblName: Option<string>, dialect: string)
    ensures Lookup(schemas, schemaName, tblName, dialect).0.None?
            <==> forall i :: 0 <= i < |schemas| ==> !Matches(schemas[i], schemaName, tblName)
    ensures Lookup(schemas, schemaName, tblName, dialect).0.Some? ==>
            exists i :: 0 <= i < |schemas| && Matches(schemas[i], schemaName, tblName)
              && Lookup(schemas, schemaName, tblName, dialect).0.value
                 == schemas[i].partitionMap[tblName.value].partitionNames
              && forall j :: i < j < |schemas| ==> !Matches(schemas[j], schemaName, tblName)
  {
    if schemas != [] {
      var n := |schemas|;
      var init := schemas[..n - 1];
      LookupFindsLastMatch(init, schemaName, tblName, dialect);
      assert forall i :: 0 <= i < n - 1 ==> init[i] == schemas[i];
      if !Matches(schemas[n - 1], schemaName, tblName) && Lookup(init, schemaName, tblName, dialect).0.Some? {
        var i :| 0 <= i < |init| && Matches(init[i], schemaName, tblName)
                 && Lookup(init, schemaName, tblName, dialect).0.value
                    == init[i].partitionMap[tblName.value].partitionNames
                 && forall j :: i < j < |init| ==> !Matches(init[j], schemaName, tblName);
        assert schemas[i] == init[i];
      }
    }
  }

  /** An unqualified table name never finds a partition list. */
  lemma UnqualifiedNameHasNoPartitions(schemas: seq<PartitionedSchema>, tblName: Option<string>, dialect: string)
    ensures Lookup(schemas, None, tblName, dialect).0 == None
  {
    LookupFindsLastMatch(schemas, None, tblName, dialect);
  }

  /** The partition key is found only for bigquery. */
  lemma {:induction false} KeyOnlyForBigquery(schemas: seq<PartitionedSchema>, schemaName: Option<string>,
                                             tblName: Option<string>, dialect: string)
    requires dialect != "bigquery"
    ensures Lookup(schemas, schemaName, tblName, dialect).1 == None
  {
    if schemas != [] {
      KeyOnlyForBigquery(schemas[..|schemas| - 1], schemaName, tblName, dialect);
    }
  }

  // ---------------------------------------------------------------------
  // One SQL string per partition.

  /** Java string concatenation writes a null reference as "null". */
  function Show(s: Option<string>): string
  {
    if s.Some? then s.value else "null"
  }

  function PartitionQuery(dialect: string, cols: string, schemaName: Option<string>, tblName: Option<string>,
                          key: Option<string>, parts: seq<string>, k: nat): string
    requires k < |parts|
  {
    if dialect == "postgresql" then
      "select " + cols + " from " + Show(schemaName) + "." + parts[k]
    else if dialect == "bigquery" then
      "select " + cols + "from " + Show(schemaName) + "." + Show(tblName)
        + " where " + Show(key) + " >= " + parts[k]
        + (if k < |parts| - 1 then " and " + Show(key) + " < " + parts[k + 1] else "")
    else
      "select " + cols + " from " + Show(tblName) + " partition(" + parts[k] + ")"
  }

  /** The plan: what the loop over the partition list appends to saveQuery. */
  function PlanQueries(dialect: string, cols: string, schemaName: Option<string>, tblName: Option<string>,
                       key: Option<string>, parts: seq<string>): (qs: seq<string>)
    ensures |qs| == |parts|
    ensures forall k :: 0 <= k < |parts| ==> qs[k] == PartitionQuery(dialect, cols, schemaName, tblName, key, parts, k)
  {
    seq(|parts|, k requires 0 <= k < |parts| => PartitionQuery(dialect, cols, schemaName, tblName, key, parts, k))
  }

  /** Every plan query projects the rewritten columns. */
  lemma QueriesProjectColumns(dialect: string, cols: string, schemaName: Option<string>,
                              tblName: Option<string>, key: Option<string>, parts: seq<string>, k: nat)
    requires k < |parts|
    ensures StartsWith(PartitionQuery(dialect, cols, schemaName, tblName, key, parts, k), "select " + cols)
  {
    var head := "select " + cols;
    SuffixOf(head, "");
    assert head + "" == head;
    if dialect == "postgresql" {
      KeepsPrefix(head, " from ", head);
      KeepsPrefix(head + " from ", Show(schemaName), head);
      KeepsPrefix(head + " from " + Show(schemaName), ".", head);
      KeepsPrefix(head + " from " + Show(schemaName) + ".", parts[k], head);
    } else if dialect == "bigquery" {
      var w := head + "from " + Show(schemaName) + "." + Show(tblName) + " where " + Show(key) + " >= " + parts[k];
      KeepsPrefix(head, "from ", head);
      KeepsPrefix(head + "from ", Show(schemaName), head);
      KeepsPrefix(head + "from " + Show(schemaName), ".", head);
      KeepsPrefix(head + "from " + Show(schemaName) + ".", Show(tblName), head);
      KeepsPrefix(head + "from " + Show(schemaName) + "." + Show(tblName), " where ", head);
      KeepsPrefix(head + "from " + Show(schemaName) + "." + Show(tblName) + " where ", Show(key), head);
      KeepsPrefix(head + "from " + Show(schemaName) + "." + Show(tblName) + " where " + Show(key), " >= ", head);
      KeepsPrefix(head + "from " + Show(schemaName) + "." + Show(tblName) + " where " + Show(key) + " >= ",
                  parts[k], head);
      KeepsPrefix(w, if k < |parts| - 1 then " and " + Show(key) + " < " + parts[k + 1] else "", head);
    } else {
      KeepsPrefix(head, " from ", head);
      KeepsPrefix(head + " from ", Show(tblName), head);
      KeepsPrefix(head + " from " + Show(tblName), " partition(", head);
      KeepsPrefix(head + " from " + Show(tblName) + " partition(", parts[k], head);
      KeepsPrefix(head + " from " + Show(tblName) + " partition(" + parts[k], ")", head);
    }
  }

  /** Appending keeps a prefix. */
  lemma KeepsPrefix(s: string, t: string, p: string)
    requires StartsWith(s, p)
    ensures StartsWith(s + t, p)
  {
    assert (s + t)[..|p|] == s[..|p|];
  }

  /** A postgresql query reads the partition as a relation of the schema. */
  lemma PostgresQueryNamesPartition(cols: string, schemaName: Option<string>,
                                    tblName: Option<string>, key: Option<string>, parts: seq<string>, k: nat)
    requires k < |parts|
    ensures EndsWith(PartitionQuery("postgresql", cols, schemaName, tblName, key, parts, k),
                     " from " + Show(schemaName) + "." + parts[k])
  {
    var head := "select " + cols;
    RegroupTail(head, " from ", Show(schemaName), ".", parts[k], "");
    SuffixOf(head, " from " + Show(schemaName) + "." + parts[k]);
  }

  /** Other non-bigquery dialects select the partition with a partition clause. */
  lemma OtherDialectQueryNamesPartition(dialect: string, cols: string, schemaName: Option<string>,
                                        tblName: Option<string>, key: Option<string>, parts: seq<string>, k: nat)
    requires k < |parts| && dialect != "postgresql" && dialect != "bigquery"
    ensures EndsWith(PartitionQuery(dialect, cols, schemaName, tblName, key, parts, k),
                     " from " + Show(tblName) + " partition(" + parts[k] + ")")
  {
    var head := "select " + cols;
    RegroupTail(head, " from ", Show(tblName), " partition(", parts[k], ")");
    SuffixOf(head, " from " + Show(tblName) + " partition(" + parts[k] + ")");
  }

  /** Regrouping a chain of appends after its first part. */
  lemma RegroupTail(h: string, a: string, b: string, c: string, d: string, e: string)
    ensures h + a + b + c + d + e == h + (a + b + c + d + e)
    ensures h + a + b + c + d == h + (a + b + c + d)
  {
    AppendAssoc(h, a, b);
    AppendAssoc(h, a + b, c);
    AppendAssoc(h, a + b + c, d);
    AppendAssoc(h, a + b + c + d, e);
  }

  /** A bigquery query selects a key range that starts at its partition and
      ends before the next one; the last range is open above. */
  lemma BigqueryQueryIsKeyRange(cols: string, schemaName: Option<string>,
                                tblName: Option<string>, key: Option<string>, parts: seq<string>, k: nat)
    requires k < |parts|
    ensures k < |parts| - 1 ==>
      EndsWith(PartitionQuery("bigquery", cols, schemaName, tblName, key, parts, k),
               " and " + Show(key) + " < " + parts[k + 1])
    ensures k == |parts| - 1 ==>
      EndsWith(PartitionQuery("bigquery", cols, schemaName, tblName, key, parts, k),
               " >= " + parts[k])
  {
    var q := PartitionQuery("bigquery", cols, schemaName, tblName, key, parts, k);
    var w := "select " + cols + "from " + Show(schemaName) + "." + Show(tblName) + " where " + Show(key);
    if k < |parts| - 1 {
      var high := " and " + Show(key) + " < " + parts[k + 1];
      assert q == w + " >= " + parts[k] + high;
      SuffixOf(w + " >= " + parts[k], high);
    } else {
      assert q == w + " >= " + parts[k] + "";
      SuffixOf(w, " >= " + parts[k]);
      assert w + " >= " + parts[k] + "" == w + (" >= " + parts[k]);
    }
  }

  lemma SuffixOf(a: string, b: string)
    ensures EndsWith(a + b, b) && StartsWith(a + b, a)
  {
    assert (a + b)[|a + b| - |b|..] == b;
    assert (a + b)[..|a|] == a;
  }

  /** The approximate flag: the lower-cased statement starts with "select"
      and contains "approximate". */
  predicate IsApproximate(sql: string)
  {
    StartsWith(Lower(sql), "select") && Contains(Lower(sql), "approximate")
  }

  /** The factor COUNT and SUM are scaled by on the sequential paths:
      integer division of the partition count by the partitions merged. */
  function Factor(approximate: bool, totalPartitionCnt: int, saveQueryIdx: nat): (f: int)
    ensures !approximate ==> f == 1
    ensures approximate && totalPartitionCnt >= 0 ==> f * (saveQueryIdx + 1) <= totalPartitionCnt < (f + 1) * (saveQueryIdx + 1)
  {
    if approximate then totalPartitionCnt / (saveQueryIdx + 1) else 1
  }

  /** Everything planning decides from the parsed statement, the URL and the
      schemas: the aggregate calls recorded (also when planning then fails)
      and either the queries or the exception. */
  datatype Planned = Planned(aggs: seq<AggKind>, outcome: Result<seq<string>>)

  /** `(SqlIdentifier) from` then `from.toString()`. */
  function FromText(from: FromClause): Result<string>
  {
    match from
    case FromName(n) => Success(n)
    case FromOther => Failure(ClassCast)
    case NoFrom => Failure(NullPointer)
  }

  function PlanStatement(stmt: Statement, url: string, schemas: seq<PartitionedSchema>): Planned
  {
    match stmt
    case OtherStatement => Planned([], Failure(ClassCast))
    case Select(items, from) =>
      var rw := Rewrite(items);
      if rw.fault.Some? then Planned(rw.aggs, Failure(rw.fault.value))
      else match FromText(from)
        case Failure(f) => Planned(rw.aggs, Failure(f))
        case Success(name) =>
          var (schemaName, tblName) := TableRef(name);
          match Dialect(url)
          case Failure(f) => Planned(rw.aggs, Failure(f))
          case Success(d) =>
            var (parts, key) := Lookup(schemas, schemaName, tblName, d);
            if parts.None? then Planned(rw.aggs, Failure(NotPartitioned))
            else Planned(rw.aggs, Success(PlanQueries(d, rw.columns, schemaName, tblName, key, parts.value)))
  }

  /** A plan exists only for a rewrite that succeeded and a schema-qualified
      partitioned table; it has one query per partition and one recorded call
      per aggregate item. */
  lemma PlanShape(stmt: Statement, url: string, schemas: seq<PartitionedSchema>)
    requires PlanStatement(stmt, url, schemas).outcome.Success?
    ensures stmt.Select? && Rewrite(stmt.items).fault.None? && stmt.from.FromName?
    ensures TableRef(stmt.from.name).0.Some?
    ensures |PlanStatement(stmt, url, schemas).aggs| == CallCount(stmt.items)
    ensures |PlanStatement(stmt, url, schemas).outcome.value|
         == |Lookup(schemas, TableRef(stmt.from.name).0, TableRef(stmt.from.name).1, Dialect(url).value).0.value|
  {
    RewriteShape(stmt.items);
    var (schemaName, tblName) := TableRef(stmt.from.name);
    if schemaName.None? {
      UnqualifiedNameHasNoPartitions(schemas, tblName, Dialect(url).value);
    }
  }
}
