/** The flags block of help.go (helpFlags, printFlag), over the flag definitions of the
    invocation's flag set in the order the flag package enumerates them. */
module Flags {
  import opened Commands

  // ---- the enumeration order of flag.FlagSet.VisitAll: by name, comparing strings element-wise ----

  /** `a <= b` for Go strings: lexicographic, a proper prefix first. */
  predicate NameLeq(a: string, b: string)
  {
    if a == [] then true
    else if b == [] then false
    else if a[0] != b[0] then a[0] < b[0]
    else NameLeq(a[1..], b[1..])
  }

  /** Of any two names one is at most the other. */
  lemma {:induction false} NameLeqTotal(a: string, b: string)
    ensures NameLeq(a, b) || NameLeq(b, a)
  {
    if a != [] && b != [] && a[0] == b[0] {
      NameLeqTotal(a[1..], b[1..]);
    }
  }

  /** Adjacent flags are in name order. */
  predicate SortedByName(fs: seq<FlagDef>)
  {
    forall i :: 0 < i < |fs| ==> NameLeq(fs[i - 1].name, fs[i].name)
  }

  /** Insert one flag into a list sorted by name, before the first flag whose name is not smaller. */
  function Insert(f: FlagDef, fs: seq<FlagDef>): (r: seq<FlagDef>)
    requires SortedByName(fs)
    ensures SortedByName(r)
    ensures multiset(r) == multiset(fs) + multiset{f}
    ensures r != [] && (r[0] == f || (fs != [] && r[0] == fs[0]))
  {
    if fs == [] || NameLeq(f.name, fs[0].name) then [f] + fs
    else
      NameLeqTotal(f.name, fs[0].name);
      var rest := Insert(f, fs[1..]);
      assert fs == [fs[0]] + fs[1..];
      [fs[0]] + rest
  }

  /** The flags of a flag set in the order VisitAll visits them: sorted by name. */
  function VisitAll(fs: seq<FlagDef>): (r: seq<FlagDef>)
    ensures SortedByName(r)
    ensures multiset(r) == multiset(fs)
  {
    if fs == [] then []
    else
      assert fs == [fs[0]] + fs[1..];
      Insert(fs[0], VisitAll(fs[1..]))
  }

  // ---- printFlag ----

  /** `%q` of a default value. */
  function Quote(s: string): string
  {
    "\"" + s + "\""
  }

  /** The part of a flag line before any default: its name, its type word in parentheses unless
      the type word is empty (a bool flag), a tab, and its usage. */
  function FlagHead(f: FlagDef): string
  {
    if f.typ == "" then "\t-" + f.name + "\t" + f.usage
    else "\t-" + f.name + " (" + f.typ + ")\t" + f.usage
  }

  /** How a non-zero default is shown: quoted for string flags, as it is for every other type. */
  function ShownDefault(f: FlagDef): string
  {
    if f.typ == "string" then Quote(f.defValue) else f.defValue
  }

  /** printFlag: the head, then the default unless it is the zero value. */
  function FlagLine(f: FlagDef): (line: string)
    ensures f.defIsZero ==> line == FlagHead(f)
  {
    if f.defIsZero then FlagHead(f)
    else FlagHead(f) + " (default " + ShownDefault(f) + ")"
  }

  /** The rules of a flag line: it starts with the name and, unless the type word is empty
      (a bool flag), the type word in parentheses, then the tab and the usage text; the default
      follows exactly when it is not the zero value, quoted for string flags only. */
  lemma FlagLineRules(f: FlagDef)
    ensures f.typ == "" ==> ("\t-" + f.name + "\t" + f.usage) <= FlagLine(f)
    ensures f.typ != "" ==> ("\t-" + f.name + " (" + f.typ + ")\t" + f.usage) <= FlagLine(f)
    ensures f.defIsZero <==> FlagLine(f) == FlagHead(f)
    ensures !f.defIsZero && f.typ == "string" ==>
      FlagLine(f)[|FlagHead(f)|..] == " (default \"" + f.defValue + "\")"
    ensures !f.defIsZero && f.typ != "string" ==>
      FlagLine(f)[|FlagHead(f)|..] == " (default " + f.defValue + ")"
  {
    var tail := " (default " + ShownDefault(f) + ")";
    if !f.defIsZero {
      assert FlagLine(f) == FlagHead(f) + tail;
      assert |FlagLine(f)| > |FlagHead(f)|;
      assert FlagLine(f)[|FlagHead(f)|..] == tail;
    }
  }

  // ---- helpFlags ----

  /** The built-in entry that always closes the flags block. */
  const HelpFlagLine: string := "\t-help\tshow help message"

  /** The lines printFlag writes for each flag, in order. */
  function FlagEntries(fs: seq<FlagDef>): (lines: seq<string>)
    ensures |lines| == |fs|
    ensures forall i :: 0 <= i < |fs| ==> lines[i] == FlagLine(fs[i])
  {
    if fs == [] then [] else FlagEntries(fs[..|fs| - 1]) + [FlagLine(fs[|fs| - 1])]
  }

  /** The flags block for the given enumeration: a heading, one line per flag, the -help entry
      and an empty line. */
  function FlagBlock(visited: seq<FlagDef>): seq<string>
  {
    ["\tFlags:\t"] + FlagEntries(visited) + [HelpFlagLine, ""]
  }

  /** The flags block lists every flag in enumeration order and always ends with the -help entry. */
  lemma FlagBlockLayout(visited: seq<FlagDef>)
    ensures var b := FlagBlock(visited);
      |b| == |visited| + 3 && b[0] == "\tFlags:\t" &&
      (forall i :: 0 <= i < |visited| ==> b[i + 1] == FlagLine(visited[i])) &&
      b[|b| - 2] == HelpFlagLine && b[|b| - 1] == ""
  {
  }

  /** One more flag adds its line. */
  lemma FlagEntriesSnoc(fs: seq<FlagDef>, i: nat)
    requires i < |fs|
    ensures FlagEntries(fs[..i + 1]) == FlagEntries(fs[..i]) + [FlagLine(fs[i])]
  {
    assert fs[..i + 1][..i] == fs[..i];
  }

  /** helpFlags: the heading, a line per flag as VisitAll visits them, then the -help entry. */
  method HelpFlags(fs: seq<FlagDef>) returns (lines: seq<string>)
    ensures lines == FlagBlock(VisitAll(fs))
  {
    lines := ["\tFlags:\t"];
    var visited := VisitAll(fs);
    for i := 0 to |visited|
      invariant lines == ["\tFlags:\t"] + FlagEntries(visited[..i])
    {
      FlagEntriesSnoc(visited, i);
      lines := lines + [FlagLine(visited[i])];
    }
    assert visited[..|visited|] == visited;
    lines := lines + [HelpFlagLine, ""];
  }
}
