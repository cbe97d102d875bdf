/** A name-keyed table filled by successive assignments `table[name] = value`,
    the way the build fills its layout table and Handlebars registries. */
module Registry {

  /** Assigning `table[name] = value` for every entry, in order. */
  function Register<T>(table: map<string, T>, entries: seq<(string, T)>): map<string, T> {
    if entries == [] then table
    else Register(table, entries[..|entries| - 1])[entries[|entries| - 1].0 := entries[|entries| - 1].1]
  }

  /** The registered names are the table's and the entries'. */
  lemma {:induction false} RegisterKeys<T>(table: map<string, T>, entries: seq<(string, T)>, name: string)
    ensures name in Register(table, entries) <==> name in table || exists j :: 0 <= j < |entries| && entries[j].0 == name
  {
    if entries != [] {
      var init := entries[..|entries| - 1];
      RegisterKeys(table, init, name);
      if exists j :: 0 <= j < |init| && init[j].0 == name {
        var j :| 0 <= j < |init| && init[j].0 == name;
        assert entries[j].0 == name;
      }
      if exists j :: 0 <= j < |entries| && entries[j].0 == name {
        var j :| 0 <= j < |entries| && entries[j].0 == name;
        if j < |init| {
          assert init[j].0 == name;
        }
      }
    }
  }

  /** Registering one more entry is one more assignment. */
  lemma RegisterStep<T>(table: map<string, T>, entries: seq<(string, T)>, i: nat)
    requires i < |entries|
    ensures Register(table, entries[..i + 1]) == Register(table, entries[..i])[entries[i].0 := entries[i].1]
  {
    assert entries[..i + 1][..i] == entries[..i];
  }

  /** Registering one more entry at the end is one more assignment. */
  lemma RegisterSnoc<T>(table: map<string, T>, entries: seq<(string, T)>, entry: (string, T))
    ensures Register(table, entries + [entry]) == Register(table, entries)[entry.0 := entry.1]
  {
    assert (entries + [entry])[..|entries|] == entries;
  }

  /** The last entry under a name is the one that stays. */
  lemma {:induction false} RegisterLastWins<T>(table: map<string, T>, entries: seq<(string, T)>, i: nat)
    requires i < |entries|
    requires forall j :: i < j < |entries| ==> entries[j].0 != entries[i].0
    ensures entries[i].0 in Register(table, entries) && Register(table, entries)[entries[i].0] == entries[i].1
  {
    if i < |entries| - 1 {
      RegisterLastWins(table, entries[..|entries| - 1], i);
    }
  }

  /** A name no entry mentions keeps what the table had. */
  lemma {:induction false} RegisterUntouched<T>(table: map<string, T>, entries: seq<(string, T)>, name: string)
    requires name in table
    requires forall j :: 0 <= j < |entries| ==> entries[j].0 != name
    ensures name in Register(table, entries) && Register(table, entries)[name] == table[name]
  {
    if entries != [] {
      RegisterUntouched(table, entries[..|entries| - 1], name);
    }
  }

  /** Registering a second list continues the first. */
  lemma {:induction false} RegisterAppend<T>(table: map<string, T>, a: seq<(string, T)>, b: seq<(string, T)>)
    ensures Register(Register(table, a), b) == Register(table, a + b)
    decreases |b|
  {
    if b != [] {
      var ab := a + b;
      var last := b[|b| - 1];
      assert ab[..|ab| - 1] == a + b[..|b| - 1];
      assert ab[|ab| - 1] == last;
      RegisterAppend(table, a, b[..|b| - 1]);
      calc {
        Register(Register(table, a), b);
        Register(Register(table, a), b[..|b| - 1])[last.0 := last.1];
        Register(table, a + b[..|b| - 1])[last.0 := last.1];
        Register(table, ab);
      }
    } else {
      assert a + b == a;
    }
  }
}
