/**
  The `processFrontMatter` callback of the command: up to four guarded writes into the
  note's frontmatter object, in the order author, date, description, duration.
 */
module Frontmatter {
  import opened Text
  import opened Settings
  import Duration
  import DateFormat

  /** The fields of `data.items[0]` the command reads (`snippet.*`, `contentDetails.duration`). */
  datatype VideoItem = VideoItem(
    title: string,
    channelTitle: string,
    publishedAt: string,
    description: string,
    duration: string)

  /** One `fm[key] = value` assignment. */
  datatype Write = Write(key: string, value: string)

  /** `if (toggle) { fm[key] = value; }`: the write when its toggle is on, nothing otherwise. */
  function Guarded(enabled: bool, w: Write): seq<Write> {
    if enabled then [w] else []
  }

  /** The assignments the callback performs, in program order. */
  function PlannedWrites(cfg: Config, item: VideoItem): seq<Write> {
    Guarded(cfg.updateAuthor, Write(cfg.authorProperty, item.channelTitle))
    + Guarded(cfg.updateDate,
              Write(cfg.dateProperty, DateFormat.FormatDate(item.publishedAt, cfg.dateFormat)))
    + Guarded(cfg.updateDescription, Write(cfg.descriptionProperty, item.description))
    + Guarded(cfg.updateDuration,
              Write(cfg.durationProperty, Duration.FormatDuration(item.duration)))
  }

  /** The map after the assignments, one after the other. */
  function ApplyWrites(m: map<string, string>, writes: seq<Write>): map<string, string>
    decreases |writes|
  {
    if writes == [] then m
    else ApplyWrites(m[writes[0].key := writes[0].value], writes[1..])
  }

  /** The value of the last assignment to `key`, if any. */
  function LastWrite(writes: seq<Write>, key: string): (r: Option<string>)
    ensures r.None? <==> forall i :: 0 <= i < |writes| ==> writes[i].key != key
  {
    if writes == [] then None
    else
      var later := LastWrite(writes[1..], key);
      if later.Some? then later
      else if writes[0].key == key then Some(writes[0].value)
      else (assert forall i :: 1 <= i < |writes| ==> writes[1..][i - 1] == writes[i]; None)
  }

  /** It is the value of an assignment to `key` after which `key` is not assigned again. */
  lemma {:induction false} LastWriteIsLast(writes: seq<Write>, key: string)
    requires LastWrite(writes, key).Some?
    ensures exists i :: 0 <= i < |writes| && writes[i] == Write(key, LastWrite(writes, key).value)
                        && forall j :: i < j < |writes| ==> writes[j].key != key
  {
    var later := LastWrite(writes[1..], key);
    var v := LastWrite(writes, key).value;
    if later.Some? {
      LastWriteIsLast(writes[1..], key);
      var i :| 0 <= i < |writes| - 1 && writes[1..][i] == Write(key, v)
               && forall j :: i < j < |writes| - 1 ==> writes[1..][j].key != key;
      assert writes[i + 1] == Write(key, v);
      assert forall j :: i + 1 < j < |writes| ==> writes[j] == writes[1..][j - 1];
    } else {
      assert forall j :: 0 < j < |writes| ==> writes[j] == writes[1..][j - 1];
      assert writes[0] == Write(key, v);
    }
  }

  /** After a sequence of assignments, a key holds its last assigned value, and a key
      never assigned keeps its old value (or stays absent). */
  lemma {:induction false} ApplyWritesAt(m: map<string, string>, writes: seq<Write>, key: string)
    ensures key in ApplyWrites(m, writes) <==> key in m || LastWrite(writes, key).Some?
    ensures key in ApplyWrites(m, writes) ==>
              ApplyWrites(m, writes)[key]
              == if LastWrite(writes, key).Some? then LastWrite(writes, key).value else m[key]
    decreases |writes|
  {
    if writes != [] {
      ApplyWritesAt(m[writes[0].key := writes[0].value], writes[1..], key);
    }
  }

  /** One more assignment at the end. */
  lemma {:induction false} ApplyWritesSnoc(m: map<string, string>, writes: seq<Write>, w: Write)
    ensures ApplyWrites(m, writes + [w]) == ApplyWrites(m, writes)[w.key := w.value]
    decreases |writes|
  {
    if writes == [] {
      assert ([] + [w])[1..] == [];
    } else {
      assert (writes + [w])[1..] == writes[1..] + [w];
      ApplyWritesSnoc(m[writes[0].key := writes[0].value], writes[1..], w);
    }
  }

  /** One more guarded assignment at the end. */
  lemma ApplyWritesGuarded(m: map<string, string>, writes: seq<Write>, enabled: bool, w: Write)
    ensures ApplyWrites(m, writes + Guarded(enabled, w))
            == if enabled then ApplyWrites(m, writes)[w.key := w.value] else ApplyWrites(m, writes)
  {
    if enabled {
      ApplyWritesSnoc(m, writes, w);
    } else {
      assert writes + Guarded(enabled, w) == writes;
    }
  }

  /** The last assignment to a key in two stretches of assignments. */
  lemma {:induction false} LastWriteAppend(a: seq<Write>, b: seq<Write>, key: string)
    ensures LastWrite(a + b, key)
            == if LastWrite(b, key).Some? then LastWrite(b, key) else LastWrite(a, key)
    decreases |a|
  {
    if a == [] {
      assert a + b == b;
    } else {
      assert (a + b)[1..] == a[1..] + b;
      LastWriteAppend(a[1..], b, key);
    }
  }

  lemma LastWriteSingle(w: Write, key: string)
    ensures LastWrite([w], key) == if w.key == key then Some(w.value) else None
  {
    assert [w][1..] == [];
  }

  /** The value the callback assigns to `key`, as a reference definition: that of the
      last enabled write to it in the order author, date, description, duration. */
  function EnabledValue(cfg: Config, item: VideoItem, key: string): Option<string> {
    if cfg.updateDuration && key == cfg.durationProperty then
      Some(Duration.FormatDuration(item.duration))
    else if cfg.updateDescription && key == cfg.descriptionProperty then Some(item.description)
    else if cfg.updateDate && key == cfg.dateProperty then
      Some(DateFormat.FormatDate(item.publishedAt, cfg.dateFormat))
    else if cfg.updateAuthor && key == cfg.authorProperty then Some(item.channelTitle)
    else None
  }

  lemma LastWriteGuarded(enabled: bool, w: Write, key: string)
    ensures LastWrite(Guarded(enabled, w), key)
            == if enabled && w.key == key then Some(w.value) else None
  {
    if enabled {
      LastWriteSingle(w, key);
    }
  }

  /** The last of the planned writes to a key is the one the reference names. */
  lemma LastPlannedWrite(cfg: Config, item: VideoItem, key: string)
    ensures LastWrite(PlannedWrites(cfg, item), key) == EnabledValue(cfg, item, key)
  {
    var a := Guarded(cfg.updateAuthor, Write(cfg.authorProperty, item.channelTitle));
    var d := Guarded(cfg.updateDate,
                       Write(cfg.dateProperty, DateFormat.FormatDate(item.publishedAt, cfg.dateFormat)));
    var e := Guarded(cfg.updateDescription, Write(cfg.descriptionProperty, item.description));
    var u := Guarded(cfg.updateDuration,
                       Write(cfg.durationProperty, Duration.FormatDuration(item.duration)));
    assert PlannedWrites(cfg, item) == a + d + e + u;
    LastWriteGuarded(cfg.updateAuthor, Write(cfg.authorProperty, item.channelTitle), key);
    LastWriteGuarded(cfg.updateDate,
                     Write(cfg.dateProperty, DateFormat.FormatDate(item.publishedAt, cfg.dateFormat)), key);
    LastWriteGuarded(cfg.updateDescription, Write(cfg.descriptionProperty, item.description), key);
    LastWriteGuarded(cfg.updateDuration,
                     Write(cfg.durationProperty, Duration.FormatDuration(item.duration)), key);
    LastWriteAppend(a, d, key);
    LastWriteAppend(a + d, e, key);
    LastWriteAppend(a + d + e, u, key);
  }

  /** The callback's effect on every key: the enabled write that comes last lands, and
      every other key keeps its value or stays absent. */
  lemma UpdateResult(m: map<string, string>, cfg: Config, item: VideoItem, key: string)
    ensures var r := ApplyWrites(m, PlannedWrites(cfg, item));
            && (key in r <==> EnabledValue(cfg, item, key).Some? || key in m)
            && (key in r ==> r[key] == if EnabledValue(cfg, item, key).Some?
                                        then EnabledValue(cfg, item, key).value else m[key])
  {
    LastPlannedWrite(cfg, item, key);
    ApplyWritesAt(m, PlannedWrites(cfg, item), key);
  }

  /** With all four toggles off the callback changes nothing. */
  lemma UpdateDisabled(m: map<string, string>, cfg: Config, item: VideoItem)
    requires !cfg.updateAuthor && !cfg.updateDate && !cfg.updateDescription && !cfg.updateDuration
    ensures ApplyWrites(m, PlannedWrites(cfg, item)) == m
  {
    assert PlannedWrites(cfg, item) == [];
  }

  /** The frontmatter object handed to the callback. */
  class FrontMatter {
    var fields: map<string, string>

    constructor (fields: map<string, string>)
      ensures this.fields == fields
    {
      this.fields := fields;
    }

    /** The callback body. */
    method Update(cfg: Config, item: VideoItem)
      modifies this
      ensures fields == ApplyWrites(old(fields), PlannedWrites(cfg, item))
    {
      ghost var writes: seq<Write> := [];
      var author := Write(cfg.authorProperty, item.channelTitle);
      ApplyWritesGuarded(old(fields), writes, cfg.updateAuthor, author);
      if cfg.updateAuthor {
        fields := fields[cfg.authorProperty := item.channelTitle];
      }
      writes := writes + Guarded(cfg.updateAuthor, author);
      var formattedDate := DateFormat.FormatDate(item.publishedAt, cfg.dateFormat);
      var date := Write(cfg.dateProperty, formattedDate);
      ApplyWritesGuarded(old(fields), writes, cfg.updateDate, date);
      if cfg.updateDate {
        fields := fields[cfg.dateProperty := formattedDate];
      }
      writes := writes + Guarded(cfg.updateDate, date);
      var description := Write(cfg.descriptionProperty, item.description);
      ApplyWritesGuarded(old(fields), writes, cfg.updateDescription, description);
      if cfg.updateDescription {
        fields := fields[cfg.descriptionProperty := item.description];
      }
      writes := writes + Guarded(cfg.updateDescription, description);
      var formatted := Duration.FormatDuration(item.duration);
      var duration := Write(cfg.durationProperty, formatted);
      ApplyWritesGuarded(old(fields), writes, cfg.updateDuration, duration);
      if cfg.updateDuration {
        fields := fields[cfg.durationProperty := formatted];
      }
      writes := writes + Guarded(cfg.updateDuration, duration);
      assert writes == PlannedWrites(cfg, item);
    }
  }
}
