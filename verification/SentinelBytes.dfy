/**
 Where every byte of the stream goes: to an output callback, into a whole frame, or into the pending buffer.
 */
module SentinelBytes {
  import opened Common
  import opened Decimal
  import opened SentinelFrames
  import opened SentinelParser

  /** A frame as it is printed: RS, a known tag, and three fields, each ended by US. */
  ghost predicate WholeFrame(s: string) {
    exists tag, token, jobId, number ::
      (tag == "VELIX_START" || tag == "VELIX_END") && Spells(s, tag, token, jobId, number)
  }

  predicate Spells(s: string, tag: string, token: string, jobId: string, number: string) {
    && '\U{1F}' !in token && '\U{1F}' !in jobId && '\U{1F}' !in number
    && s == ['\U{1E}'] + tag + ['\U{1F}'] + token + ['\U{1F}'] + jobId + ['\U{1F}'] + number + ['\U{1F}']
  }

  /** The text that the output callbacks were given. */
  function Outputs(es: seq<Event>): string {
    if es == [] then "" else (if es[0].Output? then es[0].text else "") + Outputs(es[1..])
  }

  function Texts(ps: seq<Piece>): string {
    if ps == [] then "" else (if ps[0].Text? then ps[0].bytes else "") + Texts(ps[1..])
  }

  lemma {:induction false} OutputsAppend(es: seq<Event>, fs: seq<Event>)
    ensures Outputs(es + fs) == Outputs(es) + Outputs(fs)
  {
    if es == [] {
      assert es + fs == fs;
    } else {
      OutputsAppend(es[1..], fs);
      assert (es + fs)[1..] == es[1..] + fs;
      Regroup(if es[0].Output? then es[0].text else "", Outputs(es[1..]), Outputs(fs));
    }
  }

  lemma FramesPrintNothing(p: Piece)
    ensures Outputs(PieceEvents(p)) == if p.Text? then p.bytes else ""
  {
    hide TryParse;
    var es := PieceEvents(p);
    if es != [] {
      assert |es| == 1 && es[1..] == [];
      assert Outputs([]) == "";
    }
  }

  /** The output callbacks are given exactly the texts. */
  lemma {:induction false} OutputsAreTexts(ps: seq<Piece>)
    ensures Outputs(Callbacks(ps)) == Texts(ps)
  {
    if ps != [] {
      hide PieceEvents;
      OutputsAreTexts(ps[1..]);
      OutputsAppend(PieceEvents(ps[0]), Callbacks(ps[1..]));
      FramesPrintNothing(ps[0]);
    }
  }

  // ---- Frames ----------------------------------------------------------------------------------

  lemma {:induction false} FieldsCutAreText(s: string, from: nat, n: nat)
    requires from <= |s| && CutFields(s, from, n).Fields?
    ensures var f := CutFields(s, from, n);
            s[from..f.end] == FieldsText(f.values) && forall v | v in f.values :: FIELD_SEPARATOR !in v
    decreases n
  {
    hide Find;
    if n > 0 {
      var k := Find(s, FIELD_SEPARATOR, from);
      var rest := CutFields(s, k + 1, n - 1);
      FindIsFirst(s, FIELD_SEPARATOR, from);
      FieldsCutAreText(s, k + 1, n - 1);
      assert CutFields(s, from, n) == Fields([s[from..k]] + rest.values, rest.end);
      assert s[from..rest.end] == (s[from..k] + [s[k]]) + s[k + 1..rest.end];
      assert ([s[from..k]] + rest.values)[1..] == rest.values;
    }
  }

  lemma FrameTextSpells(s: string, tag: string, token: string, jobId: string, number: string)
    requires FIELD_SEPARATOR !in token && FIELD_SEPARATOR !in jobId && FIELD_SEPARATOR !in number
    ensures s == FrameText(tag, token, jobId, number) <==> Spells(s, tag, token, jobId, number)
  {
    ThreeFields(token, jobId, number);
    OneFieldText(tag);
    hide FieldsText;
    var a, b, c, d := tag + ['\U{1F}'], token + ['\U{1F}'], jobId + ['\U{1F}'], number + ['\U{1F}'];
    assert FrameText(tag, token, jobId, number) == ['\U{1E}'] + a + (b + c + d);
    assert ['\U{1E}'] + a + (b + c + d) ==
           ['\U{1E}'] + tag + ['\U{1F}'] + token + ['\U{1F}'] + jobId + ['\U{1F}'] + number + ['\U{1F}'];
  }

  lemma OneFieldText(x: string)
    ensures FieldsText([x]) == x + ['\U{1F}']
  {
    assert [x][1..] == [];
    assert FieldsText([]) == [];
  }

  lemma ThreeFields(x: string, y: string, z: string)
    ensures FieldsText([x, y, z]) == (x + ['\U{1F}']) + (y + ['\U{1F}']) + (z + ['\U{1F}'])
  {
    assert [x, y, z][1..] == [y, z] && [y, z][1..] == [z] && [z][1..] == [];
    assert FieldsText([]) == [];
    assert FieldsText([z]) == z + ['\U{1F}'];
    assert FieldsText([y, z]) == (y + ['\U{1F}']) + (z + ['\U{1F}']);
  }

  /** A buffer is recognised as one complete frame exactly if it is one. */
  lemma CompleteIff(s: string)
    requires s != [] && s[0] == '\U{1E}'
    ensures TryParse(s).Complete? && TryParse(s).size == |s| <==> WholeFrame(s)
  {
    hide CutFields, FrameText, Spells;
    if TryParse(s).Complete? && TryParse(s).size == |s| {
      var f := CutFields(s, 1, 1);
      var g := CutFields(s, f.end, 3);
      FieldsCutAreText(s, 1, 1);
      FieldsCutAreText(s, f.end, 3);
      FrameIs(s, f, g);
      FrameTextSpells(s, f.values[0], g.values[0], g.values[1], g.values[2]);
      assert Spells(s, f.values[0], g.values[0], g.values[1], g.values[2]);
    }
    if WholeFrame(s) {
      var tag, token, jobId, number :|
        (tag == "VELIX_START" || tag == "VELIX_END") && Spells(s, tag, token, jobId, number);
      SpellsNoSeparator(s, tag, token, jobId, number);
      FrameTextSpells(s, tag, token, jobId, number);
      FrameTextParses(tag, token, jobId, number);
    }
  }

  lemma SpellsNoSeparator(s: string, tag: string, token: string, jobId: string, number: string)
    requires Spells(s, tag, token, jobId, number)
    ensures FIELD_SEPARATOR !in token && FIELD_SEPARATOR !in jobId && FIELD_SEPARATOR !in number
  {}

  lemma FrameIs(s: string, f: Fields, g: Fields)
    requires s != [] && s[0] == FRAME_START
    requires f.Fields? && 1 <= f.end <= |s| && |f.values| == 1 && s[1..f.end] == FieldsText(f.values)
    requires g.Fields? && f.end <= g.end == |s| && |g.values| == 3 && s[f.end..g.end] == FieldsText(g.values)
    ensures s == FrameText(f.values[0], g.values[0], g.values[1], g.values[2])
  {
    hide FieldsText;
    assert f.values == [f.values[0]] && g.values == [g.values[0], g.values[1], g.values[2]];
    assert s == [s[0]] + s[1..f.end] + s[f.end..g.end];
  }

  /** What a whole frame with a number means: a start frame gives the pid if it is positive and fits 64 bits, an end
      frame the exit code, or 0 if it does not fit 32 bits. */
  lemma FrameMeans(s: string, token: string, jobId: string, z: int)
    ensures Spells(s, "VELIX_START", token, jobId, Show(z)) ==>
              PieceEvents(Frame(s)) == if 0 < z < 0x8000_0000_0000_0000 then [Pid(token, jobId, z)] else []
    ensures Spells(s, "VELIX_END", token, jobId, Show(z)) ==>
              PieceEvents(Frame(s)) == [End(token, jobId, if -0x8000_0000 <= z < 0x8000_0000 then z else 0)]
  {
    hide TryParse, FrameText, Spells;
    var numbers := Show(z);
    ShowHasNoSeparator(z);
    ParseShow(z, -LONG_MAX - 1, LONG_MAX);
    ParseShow(z, -INT_MAX - 1, INT_MAX);
    if Spells(s, START_TAG, token, jobId, numbers) {
      SpellsNoSeparator(s, START_TAG, token, jobId, numbers);
      FrameTextSpells(s, START_TAG, token, jobId, numbers);
      FrameTextParses(START_TAG, token, jobId, numbers);
    }
    if Spells(s, END_TAG, token, jobId, numbers) {
      SpellsNoSeparator(s, END_TAG, token, jobId, numbers);
      FrameTextSpells(s, END_TAG, token, jobId, numbers);
      FrameTextParses(END_TAG, token, jobId, numbers);
    }
  }

  ghost predicate OnlyWholeFrames(ps: seq<Piece>) {
    forall p | p in ps && p.Frame? :: WholeFrame(p.bytes)
  }

  lemma {:induction false} DrainTakesWholeFrames(buf: string)
    ensures OnlyWholeFrames(Drain(buf).pieces)
    decreases |buf|
  {
    hide TryParse, Find, Drain, WholeFrame;
    DrainUnfolds(buf);
    if !Stuck(buf) {
      DrainTakesWholeFrames(buf[|Next(buf).bytes|..]);
      if Next(buf).Frame? {
        TryParseOwnBytes(buf);
        CompleteIff(Next(buf).bytes);
      }
    }
  }

  /** Whatever the chunks: every byte that left the buffer was passed on or belongs to a whole frame, in the order of
      the input, and nothing else was passed on. */
  lemma {:induction false} EveryByteIsAccountedFor(chunks: seq<string>)
    ensures var r := Run(chunks);
            && Bytes(r.pieces) + r.pending == Concat(chunks)
            && OnlyWholeFrames(r.pieces)
            && Outputs(Callbacks(r.pieces)) == Texts(r.pieces)
  {
    hide Drain, WholeFrame, Callbacks, Outputs, Texts;
    RunKeepsBytes(chunks);
    OutputsAreTexts(Run(chunks).pieces);
    RunTakesWholeFrames(chunks);
  }

  lemma {:induction false} RunTakesWholeFrames(chunks: seq<string>)
    ensures OnlyWholeFrames(Run(chunks).pieces)
  {
    hide Drain, WholeFrame;
    if chunks != [] {
      var init, last := chunks[..|chunks| - 1], chunks[|chunks| - 1];
      RunTakesWholeFrames(init);
      DrainTakesWholeFrames(Run(init).pending + last);
    }
  }
}
