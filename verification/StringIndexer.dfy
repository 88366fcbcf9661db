/** The static string table and the handles into it, as objects. */
module StringIndexers {
  import opened Bytes
  import opened Interner

  class StringIndexer {
    var strings: Strings

    constructor ()
      ensures strings == map[]
    {
      strings := map[];
    }

    method StrToIndex(s: bytes) returns (r: byte)
      modifies this
      ensures (strings, r) == Intern(old(strings), s)
    {
      // std::map iterates in key order
      var it: nat := 0;
      while it < 256
        invariant 0 <= it <= 256
        invariant strings == old(strings)
        invariant LowestMatch(strings, s, 0) == LowestMatch(strings, s, it)
      {
        if it in strings && StrncmpEqual(strings[it].str, s) {
          strings := strings[it := strings[it].(used := (strings[it].used + 1) % 256)];
          return it;
        }
        it := it + 1;
      }
      var index: nat := 1;
      while index < 256
        invariant 1 <= index <= 256
        invariant strings == old(strings)
        invariant LowestFree(strings, 1) == LowestFree(strings, index)
      {
        if index !in strings {
          strings := strings[index := Counter(s, 0)];
          strings := strings[index := strings[index].(used := strings[index].used + 1)];
          assert strings == old(strings)[index := Counter(s, 1)];
          return index;
        }
        index := index + 1;
      }
      return 0;
    }

    method Use(index: byte)
      modifies this
      ensures strings == Interner.Use(old(strings), index)
    {
      if index in strings {
        strings := strings[index := strings[index].(used := (strings[index].used + 1) % 256)];
      }
    }

    method Release(index: byte)
      modifies this
      ensures strings == Interner.Release(old(strings), index)
    {
      if index in strings {
        strings := strings[index := strings[index].(used := (strings[index].used + 255) % 256)];
        if strings[index].used == 0 {
          strings := strings - {index};
        }
      }
    }
  }

  /** A handle. C++ runs the destructor implicitly; here it is the method `Destroy`. */
  class IndexedString {
    const table: StringIndexer
    var index: byte

    constructor FromText(table: StringIndexer, s: bytes)
      modifies table
      ensures this.table == table
      ensures (table.strings, index) == Intern(old(table.strings), TopicText(s))
    {
      this.table := table;
      new;
      index := table.StrToIndex(s[..|s| % 256]);
    }

    constructor Copy(source: IndexedString)
      modifies source.table
      ensures table == source.table && index == source.index
      ensures table.strings == Interner.Use(old(source.table.strings), source.index)
    {
      table := source.table;
      index := source.index;
      new;
      table.Use(index);
    }

    /** Takes a reference for the new index and keeps the one it had for the old. */
    method Assign(source: IndexedString)
      requires source.table == table
      modifies this`index, table
      ensures index == old(source.index)
      ensures table.strings == Interner.Use(old(table.strings), old(source.index))
    {
      table.Use(source.index);
      index := source.index;
    }

    method Destroy()
      modifies table
      ensures table.strings == Interner.Release(old(table.strings), index)
    {
      table.Release(index);
    }

    function Text(): bytes
      reads this, table
    {
      Str(table.strings, index)
    }
  }
}
