/**
 Finding the method at an address: a method, a symbol table (with ranges or with methods), and all
 symbol files of a process.
 */
module SymbolLookup {
  import opened TargetEvents

  /** A method; `bounds` is the part without prologue and epilogue, where the line table knows it. */
  datatype Method = Method(
    id: nat, loaded: bool, start: nat, end: nat,
    bounds: Option<(nat, nat)>, hasSource: bool, invokeWrapper: bool)

  predicate Contains(m: Method, address: nat) {
    m.loaded && m.start <= address < m.end
  }

  datatype RangeEntry = RangeEntry(start: nat, end: nat, symbol: Method)

  /** What a table knows; a missing list is null in the program. */
  datatype Symbols = NoSymbols | Ranges(ranges: Option<seq<RangeEntry>>) | Methods(methods: Option<seq<Method>>)

  datatype SymbolTable = SymbolTable(extent: Option<(nat, nat)>, symbols: Symbols)

  datatype SymbolFile = SymbolFile(loaded: bool, table: SymbolTable)

  predicate InExtent(table: SymbolTable, address: nat) {
    table.extent.Some? ==> table.extent.value.0 <= address < table.extent.value.1
  }

  /** `r` is the first entry of the list whose range contains the address. */
  predicate FirstRange(ranges: seq<RangeEntry>, address: nat, k: nat) {
    && k < |ranges| && ranges[k].start <= address < ranges[k].end
    && forall i :: 0 <= i < k ==> !(ranges[i].start <= address < ranges[i].end)
  }

  predicate FirstMethod(methods: seq<Method>, address: nat, k: nat) {
    && k < |methods| && Contains(methods[k], address)
    && forall i :: 0 <= i < k ==> !Contains(methods[i], address)
  }

  /** `found` is what `Lookup` promises for this table: the first range decides, or the first loaded method. */
  ghost predicate Answers(table: SymbolTable, address: nat, found: Option<Method>) {
    if !InExtent(table, address) then found.None?
    else
      match table.symbols
      case NoSymbols => found.None?
      case Ranges(ranges) =>
        if ranges.None? || forall i :: 0 <= i < |ranges.value| ==>
          !(ranges.value[i].start <= address < ranges.value[i].end)
        then found.None?
        else exists k: nat :: FirstRange(ranges.value, address, k)
                         && found == if Contains(ranges.value[k].symbol, address) then Some(ranges.value[k].symbol)
                           else None
      case Methods(methods) =>
        if methods.None? || forall i :: 0 <= i < |methods.value| ==> !Contains(methods.value[i], address)
        then found.None?
        else exists k: nat :: FirstMethod(methods.value, address, k) && found == Some(methods.value[k])
  }

  /** The lookup of a method: itself or nothing. */
  function MethodLookup(m: Method, address: nat): (found: Option<Method>)
    ensures found.Some? <==> Contains(m, address)
    ensures found.Some? ==> found.value == m
  {
    if !m.loaded then None
    else if address < m.start || address >= m.end then None
    else Some(m)
  }

  method TableLookup(table: SymbolTable, address: nat) returns (found: Option<Method>)
    ensures Answers(table, address, found)
    ensures found.Some? ==> Contains(found.value, address)
  {
    if table.extent.Some? && (address < table.extent.value.0 || address >= table.extent.value.1) {
      return None;
    }
    if table.symbols.Ranges? {
      if table.symbols.ranges.None? {
        return None;
      }
      var ranges := table.symbols.ranges.value;
      for k := 0 to |ranges|
        invariant forall i :: 0 <= i < k ==> !(ranges[i].start <= address < ranges[i].end)
      {
        if address < ranges[k].start || address >= ranges[k].end {
          continue;
        }
        assert FirstRange(ranges, address, k);
        return MethodLookup(ranges[k].symbol, address);
      }
      return None;
    }
    if !table.symbols.Methods? || table.symbols.methods.None? {
      return None;
    }
    var methods := table.symbols.methods.value;
    for k := 0 to |methods|
      invariant forall i :: 0 <= i < k ==> !Contains(methods[i], address)
    {
      if !methods[k].loaded {
        continue;
      }
      if address < methods[k].start || address >= methods[k].end {
        continue;
      }
      assert FirstMethod(methods, address, k);
      return Some(methods[k]);
    }
    return None;
  }

  /** A table has only one answer. */
  lemma AnswersAreUnique(table: SymbolTable, address: nat, a: Option<Method>, b: Option<Method>)
    requires Answers(table, address, a) && Answers(table, address, b)
    ensures a == b
  {
    if InExtent(table, address) && table.symbols.Ranges? && table.symbols.ranges.Some? {
      var ranges := table.symbols.ranges.value;
      if k: nat, l: nat :| FirstRange(ranges, address, k) && FirstRange(ranges, address, l) && k < l {
        assert false;
      }
    } else if InExtent(table, address) && table.symbols.Methods? && table.symbols.methods.Some? {
      var methods := table.symbols.methods.value;
      if k: nat, l: nat :| FirstMethod(methods, address, k) && FirstMethod(methods, address, l) && k < l {
        assert false;
      }
    }
  }

  /** `SymbolTableManager.Lookup`: the first loaded file with an answer. */
  ghost predicate FilesAnswer(files: seq<SymbolFile>, address: nat, found: Option<Method>) {
    if found.None? then forall i :: 0 <= i < |files| && files[i].loaded ==> Answers(files[i].table, address, None)
    else exists k :: 0 <= k < |files| && FirstAnswer(files, address, k, found)
  }

  ghost predicate FirstAnswer(files: seq<SymbolFile>, address: nat, k: nat, found: Option<Method>)
    requires k < |files|
  {
    && files[k].loaded && Answers(files[k].table, address, found)
    && forall i :: 0 <= i < k && files[i].loaded ==> Answers(files[i].table, address, None)
  }

  /** All symbol files together have only one answer. */
  lemma FilesAnswerIsUnique(files: seq<SymbolFile>, address: nat, a: Option<Method>, b: Option<Method>)
    requires FilesAnswer(files, address, a) && FilesAnswer(files, address, b)
    ensures a == b
  {
    if a.Some? && b.Some? {
      var k :| 0 <= k < |files| && FirstAnswer(files, address, k, a);
      var l :| 0 <= l < |files| && FirstAnswer(files, address, l, b);
      AnswersAreUnique(files[k].table, address, a, if l == k then b else if k < l then None else a);
      AnswersAreUnique(files[l].table, address, b, if l < k then None else b);
    } else if a.Some? {
      var k :| 0 <= k < |files| && FirstAnswer(files, address, k, a);
      AnswersAreUnique(files[k].table, address, a, None);
    } else if b.Some? {
      var k :| 0 <= k < |files| && FirstAnswer(files, address, k, b);
      AnswersAreUnique(files[k].table, address, b, None);
    }
  }

  method Lookup(files: seq<SymbolFile>, address: nat) returns (found: Option<Method>)
    ensures FilesAnswer(files, address, found)
    ensures found.Some? ==> Contains(found.value, address)
  {
    for k := 0 to |files|
      invariant forall i :: 0 <= i < k && files[i].loaded ==> Answers(files[i].table, address, None)
    {
      if !files[k].loaded {
        continue;
      }
      found := TableLookup(files[k].table, address);
      if found.Some? {
        assert FirstAnswer(files, address, k, found);
        return;
      }
    }
    return None;
  }

  /**
   Where no two loaded methods overlap the answer of a method table is the method at the address,
   whatever the order.
   */
  lemma DisjointMethodsAreFound(methods: seq<Method>, extent: Option<(nat, nat)>, address: nat, m: Method,
      found: Option<Method>)
    requires m in methods && Contains(m, address)
    requires forall a, b :: a in methods && b in methods && Contains(a, address) && Contains(b, address) ==> a == b
    requires InExtent(SymbolTable(extent, Methods(Some(methods))), address)
    requires Answers(SymbolTable(extent, Methods(Some(methods))), address, found)
    ensures found == Some(m)
  {
    var i :| 0 <= i < |methods| && methods[i] == m;
    assert !(forall i :: 0 <= i < |methods| ==> !Contains(methods[i], address));
    var k: nat :| FirstMethod(methods, address, k) && found == Some(methods[k]);
    assert methods[k] in methods;
  }
}
