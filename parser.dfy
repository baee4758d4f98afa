/** `readPipeDelimited` (helpers.js): reads a pipe-delimited file into
    `{date, count}` entities, skipping the header line and counting the lines
    that have no second field. */
module Parser {
  import opened Outcomes
  import opened Text

  /** One parsed line: the date text and the count text with commas removed
      (the string-to-Date and string-to-Number casts of the store are not
      part of this model). */
  datatype Entity = Entity(date: string, count: string)

  /** What the callback receives on success: the entities in file order and
      the number of dropped lines. */
  datatype Parsed = Parsed(entities: seq<Entity>, numDrops: nat)

  /** One line after the header: kept exactly when splitting it on '|' yields
      a second field, that is, when it contains a '|'. */
  function ParseLine(line: string): (e: Option<Entity>)
    ensures e.Some? <==> '|' in line
    ensures e.Some? ==> '|' !in e.value.date && ',' !in e.value.count
  {
    var fields := Split(line, '|');
    if |fields| >= 2 then Some(Entity(fields[0], RemoveAll(fields[1], ','))) else None
  }

  /** A kept line's date is the text before the first '|' and its count is the
      text between the first and the second '|' (or the end of the line) with
      every comma removed; later fields are ignored. */
  lemma ParseLineFields(date: string, raw: string, rest: string)
    requires '|' !in date && '|' !in raw
    requires rest == [] || rest[0] == '|'
    ensures ParseLine(date + "|" + raw + rest) == Some(Entity(date, RemoveAll(raw, ',')))
  {
    assert date + "|" + raw + rest == date + ['|'] + (raw + rest);
    SplitAtFirst(date, '|', raw + rest);
    SplitFirstPiece(raw, '|', rest);
  }

  /** The entities of a run of lines, in order: at most one per line, none
      with a '|' in its date or a comma in its count. */
  function Entities(lines: seq<string>): (es: seq<Entity>)
    ensures |es| <= |lines|
    ensures forall i :: 0 <= i < |es| ==> '|' !in es[i].date && ',' !in es[i].count
  {
    if lines == [] then []
    else
      var last := lines[|lines| - 1];
      Entities(lines[..|lines| - 1]) + (match ParseLine(last) case Some(e) => [e] case None => [])
  }

  /** The number of dropped lines in a run of lines: none exactly when every
      line has a '|'. */
  function Drops(lines: seq<string>): (n: nat)
    ensures n <= |lines|
    ensures n == 0 <==> forall i :: 0 <= i < |lines| ==> '|' in lines[i]
  {
    if lines == [] then 0
    else Drops(lines[..|lines| - 1]) + (if ParseLine(lines[|lines| - 1]).Some? then 0 else 1)
  }

  /** Every line yields exactly one entity or exactly one drop. */
  lemma {:induction false} EntitiesPlusDrops(lines: seq<string>)
    ensures |Entities(lines)| + Drops(lines) == |lines|
  {
    if lines != [] {
      EntitiesPlusDrops(lines[..|lines| - 1]);
    }
  }

  /** Entities keep file order: those of two runs of lines are those of the
      first run followed by those of the second. */
  lemma {:induction false} EntitiesAppend(a: seq<string>, b: seq<string>)
    ensures Entities(a + b) == Entities(a) + Entities(b)
    ensures Drops(a + b) == Drops(a) + Drops(b)
    decreases |b|
  {
    if b == [] {
      assert a + b == a;
    } else {
      var b' := b[..|b| - 1];
      assert (a + b)[..|a + b| - 1] == a + b';
      assert (a + b)[|a + b| - 1] == b[|b| - 1];
      EntitiesAppend(a, b');
    }
  }

  /** One more line extends the entities or the drops of the lines before it. */
  lemma LinesSnoc(lineList: seq<string>, i: int)
    requires 1 <= i < |lineList|
    ensures Entities(lineList[1..i + 1]) ==
              Entities(lineList[1..i]) + (match ParseLine(lineList[i]) case Some(e) => [e] case None => [])
    ensures Drops(lineList[1..i + 1]) ==
              Drops(lineList[1..i]) + (if ParseLine(lineList[i]).Some? then 0 else 1)
  {
    var run := lineList[1..i + 1];
    assert run[..|run| - 1] == lineList[1..i] && run[|run| - 1] == lineList[i];
  }

  /** The loop of lines 189-198: every line after the first is parsed,
      `entities.push` for a kept line, `numDrops++` otherwise. */
  method ReadLines(lineList: seq<string>) returns (entities: seq<Entity>, numDrops: nat)
    requires |lineList| >= 1
    ensures entities == Entities(lineList[1..])
    ensures numDrops == Drops(lineList[1..])
    ensures |entities| + numDrops == |lineList| - 1
  {
    entities, numDrops := [], 0;
    var i := 1;
    while i < |lineList|
      invariant 1 <= i <= |lineList|
      invariant entities == Entities(lineList[1..i])
      invariant numDrops == Drops(lineList[1..i])
    {
      LinesSnoc(lineList, i);
      var line := Split(lineList[i], '|');
      if |line| >= 2 {
        entities := entities + [Entity(line[0], RemoveAll(line[1], ','))];
      } else {
        numDrops := numDrops + 1;
      }
      i := i + 1;
    }
    assert lineList[1..i] == lineList[1..];
    EntitiesPlusDrops(lineList[1..]);
  }

  /** `readPipeDelimited(file, callback)` given the file's contents (`None`
      when the file cannot be read). The callback fires at the last line, so
      a file without any '\n' (a header alone) never reaches it. */
  method ReadPipeDelimited(data: Option<string>) returns (r: Callback<Parsed>)
    ensures data.None? ==> r == Err(ReadError)
    ensures data.Some? && '\n' !in data.value ==> r == NeverCalled
    ensures data.Some? && '\n' in data.value ==>
              var lineList := Split(data.value, '\n');
              r == Ok(Parsed(Entities(lineList[1..]), Drops(lineList[1..])))
    ensures r.Ok? ==> |r.value.entities| + r.value.numDrops == |Split(data.value, '\n')| - 1
  {
    if data.None? {
      return Err(ReadError);
    }
    var lineList := Split(data.value, '\n');
    var entities, numDrops := ReadLines(lineList);
    if |lineList| >= 2 {
      r := Ok(Parsed(entities, numDrops));
    } else {
      r := NeverCalled;
    }
  }

  /** A header followed by a single '\n' leaves one empty line, which has no
      second field and is dropped. */
  lemma HeaderWithNewline(header: string)
    requires '\n' !in header
    ensures Split(header + "\n", '\n')[1..] == [""]
    ensures Entities([""]) == [] && Drops([""]) == 1
  {
    assert header + "\n" == header + ['\n'] + "";
    SplitAtFirst(header, '\n', "");
  }

  /** A thousands separator is stripped from the count: a line `<date>|1,234`
      becomes the entity with that date and count `1234`. */
  lemma CommaExample(date: string, raw: string)
    requires '|' !in date && raw == "1,234"
    ensures ParseLine(date + "|" + raw) == Some(Entity(date, "1234"))
  {
    assert date + "|" + raw == date + "|" + raw + "";
    ParseLineFields(date, raw, "");
    assert raw == "1" + ([','] + "234");
    CommaRemoved("1", "234");
    assert "1" + "234" == "1234";
  }

  /** Removing the one comma of a text keeps the characters around it. */
  lemma {:induction false} CommaRemoved(before: string, after: string)
    requires ',' !in before && ',' !in after
    ensures RemoveAll(before + ([','] + after), ',') == before + after
    decreases |before|
  {
    var tail := [','] + after;
    if before == [] {
      assert before + tail == tail && before + after == after;
      RemoveAllCons(',', after, ',');
      RemoveAllAbsent(after, ',');
    } else {
      CommaRemoved(before[1..], after);
      assert before + tail == [before[0]] + (before[1..] + tail);
      assert before + after == [before[0]] + (before[1..] + after);
      RemoveAllCons(before[0], before[1..] + tail, ',');
    }
  }

  lemma RemoveAllCons(ch: char, x: string, c: char)
    ensures RemoveAll([ch] + x, c) == (if ch == c then [] else [ch]) + RemoveAll(x, c)
  {
    assert ([ch] + x)[0] == ch && ([ch] + x)[1..] == x;
  }
}
