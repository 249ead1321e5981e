/**
 * The one-off import of user ids from a text file, one id per line, into the
 * `registered_users` table. Each line is trimmed; blank lines are ignored, ids
 * already present are skipped, and new ids are inserted without a username.
 */
module MigrateUsers {
  import opened Wrappers
  import opened Text
  import opened Users

  /** A line as the reader yields it: unreadable, or a text together with the
      failures of its existence query and of its insert. */
  datatype Line = ReadError | Text(text: string, existsFails: bool, insertFails: bool)

  /** What one line does. */
  datatype Effect = Ignored | Skipped | Migrated | Failed

  /** The table and the two counters. */
  datatype Tally = Tally(users: map<string, Option<string>>, migrated: nat, skipped: nat)

  /** A failed existence query reads as "absent"; an insert of a present id fails (user ids are unique). */
  function EffectOf(users: map<string, Option<string>>, line: Line): (e: Effect)
    ensures e == Skipped ==> line.Text? && Trim(line.text) in users
    ensures e == Migrated ==> line.Text? && Trim(line.text) != [] && Trim(line.text) !in users
    ensures line.Text? && Trim(line.text) != [] && !line.existsFails && Trim(line.text) in users ==> e == Skipped
    ensures e == Ignored <==> line.ReadError? || Trim(line.text) == []
  {
    match line
    case ReadError => Ignored
    case Text(text, existsFails, insertFails) =>
      var id := Trim(text);
      if id == [] then Ignored
      else if !existsFails && id in users then Skipped
      else if insertFails || id in users then Failed
      else Migrated
  }

  /** One pass of the loop body. */
  function Apply(t: Tally, line: Line): Tally {
    match EffectOf(t.users, line)
    case Skipped => t.(skipped := t.skipped + 1)
    case Migrated => Tally(t.users[Trim(line.text) := None], t.migrated + 1, t.skipped)
    case _ => t
  }

  /** The loop over all lines. */
  function Run(t: Tally, lines: seq<Line>): Tally
    decreases |lines|
  {
    if lines == [] then t else Run(Apply(t, lines[0]), lines[1..])
  }

  /** Running over two parts is running over the first, then the second. */
  lemma {:induction false} RunAppend(t: Tally, a: seq<Line>, b: seq<Line>)
    ensures Run(t, a + b) == Run(Run(t, a), b)
    decreases |a|
  {
    if a == [] {
      assert a + b == b;
    } else {
      assert (a + b)[0] == a[0];
      assert (a + b)[1..] == a[1..] + b;
      RunAppend(Apply(t, a[0]), a[1..], b);
    }
  }

  /** The lines with something left after trimming. */
  function CountNonBlank(lines: seq<Line>): nat {
    if lines == [] then 0
    else (if lines[0].Text? && Trim(lines[0].text) != [] then 1 else 0) + CountNonBlank(lines[1..])
  }

  /** Every counted line is a non-blank one, and each is counted at most once. */
  lemma {:induction false} CountsBounded(t: Tally, lines: seq<Line>)
    ensures var r := Run(t, lines);
      && r.migrated >= t.migrated && r.skipped >= t.skipped
      && r.migrated + r.skipped <= t.migrated + t.skipped + CountNonBlank(lines)
    decreases |lines|
  {
    if lines != [] {
      CountsBounded(Apply(t, lines[0]), lines[1..]);
    }
  }

  /** Existing rows are never modified, and every row added has no username. */
  lemma {:induction false} KeepsExisting(t: Tally, lines: seq<Line>)
    ensures var r := Run(t, lines);
      && t.users.Keys <= r.users.Keys
      && forall id :: id in r.users ==> r.users[id] == if id in t.users then t.users[id] else None
    decreases |lines|
  {
    if lines != [] {
      KeepsExisting(Apply(t, lines[0]), lines[1..]);
    }
  }

  /** Adding an absent key grows the key set by one. */
  lemma AddKey(users: map<string, Option<string>>, id: string)
    requires id !in users
    ensures |users[id := None].Keys| == |users.Keys| + 1
  {
    assert users[id := None].Keys == users.Keys + {id};
  }

  /** The table grows by exactly the number of migrated ids. */
  lemma {:induction false} GrowsByMigrated(t: Tally, lines: seq<Line>)
    ensures var r := Run(t, lines);
      |r.users.Keys| == |t.users.Keys| + r.migrated - t.migrated
    decreases |lines|
  {
    if lines != [] {
      var next := Apply(t, lines[0]);
      if EffectOf(t.users, lines[0]) == Migrated {
        AddKey(t.users, Trim(lines[0].text));
      }
      GrowsByMigrated(next, lines[1..]);
      CountsBounded(next, lines[1..]);
    }
  }

  lemma SplitAt<T>(s: seq<T>, k: nat, j: nat)
    requires k < j <= |s|
    ensures s[..j] == s[..k] + [s[k]] + s[k + 1..j]
  {
    assert s[..j] == s[..k] + s[k..j];
    assert s[k..j] == [s[k]] + s[k + 1..j];
  }

  /** The table just before line `k` is handled. */
  function Before(t: Tally, lines: seq<Line>, k: nat): map<string, Option<string>>
    requires k <= |lines|
  {
    Run(t, lines[..k]).users
  }

  /** An id the file repeats is inserted once: once a line has migrated it, a later line with the
      same id (whose existence query succeeds) is skipped. */
  lemma RepeatedIdSkipped(t: Tally, lines: seq<Line>, k: nat, j: nat)
    requires k < j < |lines|
    requires EffectOf(Before(t, lines, k), lines[k]) == Migrated
    requires lines[j].Text? && !lines[j].existsFails && Trim(lines[j].text) == Trim(lines[k].text)
    ensures EffectOf(Before(t, lines, j), lines[j]) == Skipped
  {
    var id := Trim(lines[k].text);
    var pre, mid := lines[..k], lines[k + 1..j];
    var afterK := Run(t, pre + [lines[k]]);
    assert id in afterK.users by {
      RunAppend(t, pre, [lines[k]]);
      assert Run(Run(t, pre), [lines[k]]) == Apply(Run(t, pre), lines[k]);
    }
    assert Before(t, lines, j) == Run(afterK, mid).users by {
      SplitAt(lines, k, j);
      RunAppend(t, pre + [lines[k]], mid);
    }
    KeepsExisting(afterK, mid);
  }

  /** The import. Nothing happens when the file cannot be opened; the counters start at zero. */
  method MigrateUsers(reg: Registry, fileOpens: bool, lines: seq<Line>) returns (migrated: nat, skipped: nat)
    modifies reg
    ensures !fileOpens ==> reg.users == old(reg.users) && migrated == 0 && skipped == 0
    ensures fileOpens ==> Tally(reg.users, migrated, skipped) == Run(Tally(old(reg.users), 0, 0), lines)
  {
    migrated, skipped := 0, 0;
    if !fileOpens {
      return;
    }
    ghost var start := Tally(reg.users, 0, 0);
    var i := 0;
    while i < |lines|
      invariant i <= |lines|
      invariant Tally(reg.users, migrated, skipped) == Run(start, lines[..i])
    {
      RunAppend(start, lines[..i], [lines[i]]);
      assert lines[..i + 1] == lines[..i] + [lines[i]];
      var line := lines[i];
      i := i + 1;
      if line.ReadError? {
        continue;
      }
      var id := Trim(line.text);
      if id == [] {
        continue;
      }
      var present := !line.existsFails && id in reg.users;
      if present {
        skipped := skipped + 1;
        continue;
      }
      if !line.insertFails && id !in reg.users {
        reg.users := reg.users[id := None];
        migrated := migrated + 1;
      }
    }
    assert lines[..i] == lines;
  }
}
