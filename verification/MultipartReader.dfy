/** The stream reader that drives the multipart parser: it ignores what arrives after
    the parser is done and reports the end of the stream. */
module MultipartReader {
  import opened Text
  import opened Resumable
  import opened MultipartModel
  import opened MultipartParser

  /** How `finishCb` was called: with no error, for an invalid stream, for one that
      stopped early, or with the error of the transport. */
  datatype Finish = Complete | InvalidData | IncompleteData | TransportError

  datatype Reader = Reader(parser: Config<Parser>, finishes: seq<Finish>)

  ghost function Open(p: Parser): Reader { Reader(Config(p, ""), []) }

  ghost function Deliver(r: Reader, data: string): Reader {
    if Dead(r.parser.state) then r
    else
      var c := ParsePiece(r.parser, data);
      Reader(c, r.finishes + Report(c.state))
  }

  ghost function DeliverAll(r: Reader, pieces: seq<string>): Reader
    decreases |pieces|
  {
    if pieces == [] then r else DeliverAll(Deliver(r, pieces[0]), pieces[1..])
  }

  ghost function Conclude(r: Reader, failed: bool): Reader {
    if Dead(r.parser.state) then r
    else r.(finishes := r.finishes + [if failed then TransportError else IncompleteData])
  }

  /** Every stream with a usable content type is finished exactly once, one without never is. */
  lemma {:induction false} FinishedOnce(r: Reader, pieces: seq<string>, failed: bool)
    requires !Dead(r.parser.state) ==> r.finishes == []
    ensures var end := Conclude(DeliverAll(r, pieces), failed);
            |end.finishes| == if Dead(r.parser.state) then |r.finishes| else 1
    decreases |pieces|
  {
    hide ParsePiece;
    if pieces != [] {
      FinishedOnce(Deliver(r, pieces[0]), pieces[1..], failed);
    }
  }

  /** Ignoring those bytes therefore changes nothing that can be seen. */
  lemma {:induction false} ReaderFollowsParser(r: Reader, pieces: seq<string>)
    ensures Agree(DeliverAll(r, pieces).parser, ParsePieces(r.parser, pieces))
    decreases |pieces|
  {
    if Dead(r.parser.state) {
      DeadStays(r.parser, pieces);
      IgnoredPieces(r, pieces);
    } else if pieces != [] {
      Progresses();
      ReaderFollowsParser(Deliver(r, pieces[0]), pieces[1..]);
    }
  }

  lemma {:induction false} IgnoredPieces(r: Reader, pieces: seq<string>)
    requires Dead(r.parser.state)
    ensures DeliverAll(r, pieces) == r
    decreases |pieces|
  {
    if pieces != [] { IgnoredPieces(r, pieces[1..]); }
  }

  /** How a parser that has stopped is reported. */
  function Report(p: Parser): seq<Finish> {
    if !p.valid then [InvalidData] else if p.finished then [Complete] else []
  }

  /** A reader reports what the final state of its parser calls for, once. */
  lemma {:induction false} ReportedOnce(r: Reader, pieces: seq<string>)
    requires !Dead(r.parser.state)
    ensures var d := DeliverAll(r, pieces); d.finishes == r.finishes + Report(d.parser.state)
    decreases |pieces|
  {
    hide ParsePiece;
    if pieces != [] {
      var d := Deliver(r, pieces[0]);
      if Dead(d.parser.state) {
        IgnoredPieces(d, pieces[1..]);
      } else {
        ReportedOnce(d, pieces[1..]);
      }
    }
  }

  /** So the finish callback runs exactly once if and only if the content type is usable: for
      bad data, at the end of a whole upload, or else when the stream ends or fails. */
  lemma FinishedIffUsable(contentType: string, pieces: seq<string>, failed: bool)
    ensures var d := DeliverAll(Open(ForContentType(contentType)), pieces);
            var p, end := d.parser.state, Conclude(d, failed);
            end.finishes ==
              if BoundaryOf(contentType).None? then []
              else if !p.valid then [InvalidData]
              else if p.finished then [Complete]
              else if failed then [TransportError] else [IncompleteData]
  {
    var r := Open(ForContentType(contentType));
    if Dead(r.parser.state) {
      IgnoredPieces(r, pieces);
    } else {
      ReportedOnce(r, pieces);
    }
    hide BoundaryOf, DeliverAll;
  }

  /** Whatever arrives as plain text, the user of the reader is never told the end. */
  lemma NeverFinished(pieces: seq<string>, failed: bool)
    ensures Conclude(DeliverAll(Open(ForContentType("text/plain")), pieces), failed).finishes == []
  {
    assert BoundaryOf("text/plain").None? by {
      assert |"text/plain"| < |"multipart/form-data"|;
    }
    FinishedIffUsable("text/plain", pieces, failed);
  }

  /** The reader's user sees the same whatever the cuts: the same parts, and the same finish
      callbacks as if the body had come in one piece. */
  lemma ReaderCutInvariance(p: Parser, pieces: seq<string>)
    requires Step(p, "").Wait? && (LinesFit(Config(p, ""), pieces) || ShortLines(p, Concat(pieces)))
    ensures var d, whole := DeliverAll(Open(p), pieces), Parse(p, Concat(pieces));
            && Agree(d.parser, whole)
            && d.finishes == if Dead(p) then [] else Report(whole.state)
  {
    ReaderFollowsParser(Open(p), pieces);
    assert "" + Concat(pieces) == Concat(pieces);
    if LinesFit(Config(p, ""), pieces) {
      CutInvariance(Config(p, ""), pieces);
    } else {
      CutInvarianceShortLines(Config(p, ""), pieces);
    }
    if Dead(p) {
      IgnoredPieces(Open(p), pieces);
    } else {
      ReportedOnce(Open(p), pieces);
      assert [] + Report(DeliverAll(Open(p), pieces).parser.state) == Report(DeliverAll(Open(p), pieces).parser.state);
    }
  }

  class MultipartStreamReader {
    const parser: MultipartStreamParser
    var finishes: seq<Finish>

    ghost predicate Valid()
      reads this, parser, parser.buffer
    {
      parser.Valid()
    }

    /** This object and `r` look alike from outside. */
    ghost predicate LooksLike(r: Reader)
      reads this, parser, parser.buffer, parser.buffer.bytes
      requires Valid()
    {
      finishes == r.finishes && Agree(Config(parser.Model(), parser.buffer.View()), r.parser)
    }

    constructor (contentType: string)
      ensures Valid() && fresh(parser) && fresh(parser.buffer) && fresh(parser.buffer.bytes)
      ensures LooksLike(Open(ForContentType(contentType)))
    {
      parser := new MultipartStreamParser(contentType);
      finishes := [];
    }

    method OnStreamData(data: string, ghost r: Reader)
      requires Valid() && LooksLike(r)
      modifies this, parser, parser.buffer, parser.buffer.bytes
      ensures Valid() && LooksLike(Deliver(r, data))
      ensures parser.buffer.bytes == old(parser.buffer.bytes) || fresh(parser.buffer.bytes)
    {
      hide ParsePiece;
      if !parser.isValid || parser.isFinished {
        return;
      }
      parser.Parse(data);
      if !parser.isValid {
        finishes := finishes + [InvalidData];
      } else if parser.isFinished {
        finishes := finishes + [Complete];
      }
    }

    method OnStreamFinish(failed: bool, ghost r: Reader)
      requires Valid() && LooksLike(r)
      modifies this
      ensures Valid() && LooksLike(Conclude(r, failed))
    {
      if !parser.isValid || parser.isFinished {
        return;
      }
      finishes := finishes + [if failed then TransportError else IncompleteData];
    }
  }
}
