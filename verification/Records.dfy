/** The proof records as they travel: field order is the wire order. */
module Records {
  import opened Hashing
  import opened Words
  import opened Wrappers
  import Rewalk

  datatype PomOpening = PomOpening(stateBefore: U64, chunk: Bytes32, weightPath: seq<Digest>,
                                   tracePathBefore: seq<Digest>, tracePathAfter: seq<Digest>)

  datatype PomStep = PomStep(chunk: Bytes32, weightPath: seq<Digest>)

  datatype PomV3Opening = PomV3Opening(rowBefore: seq<Byte>, pathBefore: seq<Digest>, rowAfter: seq<Byte>,
                                       pathAfter: seq<Digest>, tileCol: seq<Byte>, colPath: seq<Digest>,
                                       snippetPath: seq<Digest>)

  datatype PomProofV3 = PomProofV3(tier: Byte, roots: seq<Digest>, snippets: seq<Bytes32>, checks: seq<PomV3Opening>)

  datatype PomProof = PomProof(tier: Byte, traceRoot: Digest, powValue: Bytes32, finalState: U64,
                               initialTracePath: seq<Digest>, finalTracePath: seq<Digest>,
                               openings: seq<PomOpening>, stepsV2: Option<seq<PomStep>>,
                               v3: Option<PomProofV3>, v4: Option<Rewalk.Proof>, task: Option<seq<Byte>>)
}
