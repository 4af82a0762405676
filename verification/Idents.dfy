/** Identifiers of database objects, and what they print as. */
module Idents {
  import opened Basics
  import opened Strings

  /** The identifier classes.  `env` is the environment prefix, printed in front of the first part. */
  datatype Ident =
    | AccountObject(env: string, name: string)
    | Database(env: string, database: string)
    | DatabaseRole(env: string, database: string, name: string)
    | Schema(env: string, database: string, schema: string)
    | SchemaObject(env: string, database: string, schema: string, name: string, arguments: Option<seq<string>>)
  {
    /** The core parts of `parts_for_format`. */
    function Path(): (parts: seq<string>)
      ensures 1 <= |parts| <= 3
    {
      match this
      case AccountObject(env, name) => [env + name]
      case Database(env, database) => [env + database]
      case DatabaseRole(env, database, name) => [env + database, name]
      case Schema(env, database, schema) => [env + database, schema]
      case SchemaObject(env, database, schema, name, _) => [env + database, schema, name]
    }

    function Suffix(): string {
      if SchemaObject? && arguments.Some? then "(" + Join(arguments.value, ',') + ")" else ""
    }

    /** `str(ident)`: equality and hash of identifiers are those of this string. */
    function Print(): string {
      Join(Path(), '.') + Suffix()
    }

    /** Parts are validated on construction; data type names are plain words. */
    predicate Valid() {
      && ValidPrefix(env)
      && (forall p | p in Path() :: Plain(p) && p != "")
      && (AccountObject? ==> ValidPart(name))
      && (Database? || DatabaseRole? || Schema? || SchemaObject? ==> ValidPart(database))
      && (SchemaObject? && arguments.Some? ==> forall a | a in arguments.value :: ValidPart(a))
    }
  }

  predicate AllowedChar(c: char) {
    'A' <= c <= 'Z' || '0' <= c <= '9' || c == '_' || c == '$'
  }

  predicate Plain(s: string) {
    forall c | c in s :: AllowedChar(c)
  }

  predicate ValidPart(s: string) {
    s != "" && Plain(s)
  }

  predicate ValidPrefix(s: string) {
    Plain(s) && (s != "" ==> s[|s| - 1] == '_' || s[|s| - 1] == '$')
  }

  /** The prefix is printed once, in front of the first part. */
  lemma PrintedTexts(env: string, database: string, schema: string, name: string, arguments: seq<string>)
    ensures AccountObject(env, name).Print() == env + name
    ensures Database(env, database).Print() == env + database
    ensures DatabaseRole(env, database, name).Print() == env + database + "." + name
    ensures Schema(env, database, schema).Print() == env + database + "." + schema
    ensures SchemaObject(env, database, schema, name, None).Print() == env + database + "." + schema + "." + name
    ensures SchemaObject(env, database, schema, name, Some(arguments)).Print()
         == env + database + "." + schema + "." + name + ("(" + Join(arguments, ',') + ")")
  {
    var first := env + database;
    assert Join([first, name], '.') == first + "." + name by {
      assert [first, name][1..] == [name];
    }
    assert Join([first, schema], '.') == first + "." + schema by {
      assert [first, schema][1..] == [schema];
    }
    assert Join([first, schema, name], '.') == first + "." + (schema + "." + name) by {
      assert [first, schema, name][1..] == [schema, name] && [schema, name][1..] == [name];
      assert Join([schema, name], '.') == schema + "." + name;
    }
    assert first + "." + (schema + "." + name) == first + "." + schema + "." + name;
  }

  lemma PlainIsFree(s: string, c: char)
    requires Plain(s) && !AllowedChar(c)
    ensures Free(s, c)
  {
  }

  /** The printed name determines the core parts. */
  lemma PrintDeterminesPath(a: Ident, b: Ident)
    requires a.Valid() && b.Valid() && a.Print() == b.Print()
    ensures a.Path() == b.Path() && a.Suffix() == b.Suffix()
  {
    PathOfPrint(a);
    PathOfPrint(b);
    SuffixOfPrint(a);
    SuffixOfPrint(b);
  }

  lemma SuffixOfPrint(a: Ident)
    requires Before(a.Print(), '(') == Join(a.Path(), '.')
    ensures a.Suffix() == a.Print()[|Before(a.Print(), '(')|..]
  {
  }

  lemma PathOfPrint(a: Ident)
    requires a.Valid()
    ensures Split(Before(a.Print(), '('), '.') == a.Path()
    ensures Before(a.Print(), '(') == Join(a.Path(), '.')
  {
    forall p | p in a.Path()
      ensures Free(p, '.') && Free(p, '(')
    {
      PlainIsFree(p, '.');
      PlainIsFree(p, '(');
    }
    JoinFree(a.Path(), '.', '(');
    BeforeConcat(Join(a.Path(), '.'), a.Suffix(), '(');
    assert Before(a.Suffix(), '(') == "";
    assert Join(a.Path(), '.') + "" == Join(a.Path(), '.');
    SplitJoin(a.Path(), '.');
  }
}
