# A verified model of the OPAQUE protocol engine

This project models the password-authenticated key exchange of RFC 9807 as this crate builds it, and proves properties
of the model for every input, every run and every random tape. Bytes, lengths, orders of concatenation, branches and
error mapping are concrete. The hash function, HMAC, the OPRF group, the static and ephemeral groups, the KEM and the
signature scheme are records of total functions with a few stated laws (`Primitives.dfy`): scalar multiplication
commutes, unblinding cancels blinding, Diffie-Hellman commutes, decapsulation returns the encapsulated secret, honest
signatures verify, and parsing inverts serialization. HKDF is not assumed: it is built from HMAC as in RFC 5869.
`Instance.dfy` meets all laws together with exponents modulo a prime and shows that registrations and logins on it
succeed (`Instance.LoginsSucceed`), so the premises of the main theorems can be met. No hash function is assumed
injective: where agreement fails, one of five or six pairs of inputs, each a function of the two sides
(`Transcript.KeyCandidates`, `Transcript.ConfirmationCandidates`), is a collision.

Random generators are byte tapes with a position. The steps of client and server are functions of their inputs and
tapes (`Opaque.dfy`, `KeyExchanges.dfy`); `Endpoints.dfy` and the methods in the lower modules are the same steps as
they run, with generators, hashers, MACs, pads and buffers updated in place, each proved equal to its function. A call
of `unwrap` on a failed result is the error `Panic`.

The main results are

* completeness (`EndToEnd.LoginCompletes`, `Wire.WireLoginCompletes`): after a finished registration an honest login
  succeeds, with equal session keys, if and only if the draws of both sides derive an ephemeral key, and is their
  panic otherwise; for triple Diffie-Hellman, its KEM variant and SIGMA-I, also when all messages, records and states
  are only kept as bytes;
* agreement (`LoginAgreement.LoginAgreement`): if both sides accept, they agree on the request, the response, the
  context, both identifiers in force and the session key, whatever the client was sent and whether or not there is a
  record, or one of the candidate pairs of the exchange inside collides; for SIGMA-I this holds without any assumption
  about signatures, because the client's MAC key already depends on the whole transcript;
* what every key, tag and verdict depends on, written out in HMACs and hashes, with a named collision where two inputs
  could be confused: the key schedules (`TripleDh.ServerComputes`, `TripleDh.ClientVerdict`, `SigmaVerdict.ClientVerdict`,
  `SigmaVerdict.ServerVerdict`), the OPRF key and the randomized password (`KeyMaterial.MaterialBinds`,
  `KeyMaterial.PasswordKeyBinds`), the masking pad (`Masking.MaskBinds`), the signed message (`Ed25519.AcceptedMessage`);
* fake logins (`FakeLogin.FakeLooksReal`), error classification (`LoginErrors.FinishErrors`), the duality and the two
  routes of SIGMA-I, the remote route, masking, sealing and every codec;
* the self-contained algorithms: EdDSA, HKDF-Expand over an HSM, y-parity from x-coordinates, clamping, I2OSP and the
  rotating test generator; and the digital locker over all histories, right and wrong passwords alike
  (`Locker.Vault.Serve`).

Three results are negative, with the exact condition. A record's envelope comes back from its bytes only in internal
mode (`Envelope.EnvelopeRoundTrip`). The parity recovered for a remote ECDH secret is wrong exactly when the client
key is the generator, the server key has an odd y and its double has the x-coordinate that the curve library gives the
identity (`YParity.TagIsParity`, with a witness in `YParity.TagWrongAtGenerator`). The messages that both roles sign
under SIGMA-I have no role tag, and can be the same bytes exactly under a condition on the two identifiers
(`SigmaMessage.RolesMeet`).

| file | contents |
|---|---|
| Errors, Arithmetic, Serialization, Primitives | results and errors, division, byte strings and parsers, primitives and their laws |
| Hkdf, Keypair, Identifiers, Envelope, Masking | key schedule, key pairs, length-prefixed strings, envelope, masked response |
| Transcript, TripleDh, TripleDhKem, SigmaMessage, SigmaI, SigmaVerdict, SigmaAgreement, KeyExchanges | the three key exchanges |
| KeCodecs, Messages, Layout, Readers | the encodings of all messages and states; the offset of every field; the parsers on a slice that advances in place |
| Opaque, KeyMaterial, Endpoints, EndToEnd, Wellformedness, Wire | registration and login, as functions and step by step; completeness |
| LoginAgreement, LoginErrors, FakeLogin, Remote | agreement, errors, fake logins, the remote route |
| Ed25519, EdDsaScheme, Curve25519, YParity, CycleRng, Locker, Instance | algorithms, the example application, concrete instances |

## Model

| member | source | states |
|---|---|---|
| Serialization.I2ospBuffer | src/serialization/mod.rs:15-27 | The buffer-writing I2OSP succeeds exactly below 256^L, writes the L big-endian digits for L shorter or longer than the machine word, and their value is the input (sections 4.1 and 4.2 of RFC 8017) |
| Serialization.SizeTestIsRangeTest | src/serialization/mod.rs:19-21 | The size test on leading zero bytes of a machine word accepts exactly the numbers below 256^L |
| Serialization.Os2ip | src/serialization/mod.rs:31-39 | OS2IP accepts exactly inputs up to the word size and returns their big-endian value |
| Serialization.OctetConversionsInverse | src/serialization/mod.rs:15-39 | OS2IP inverts I2OSP on all it accepts, and I2OSP at the input's own length inverts OS2IP |
| Serialization.Absorber.UpdateIter | src/serialization/mod.rs:48-62 | One update per chunk absorbs the concatenation of the chunks |
| Serialization.Reader.Take | src/serialization/mod.rs:73-89 | Taking an array returns the front of the slice and advances it, or reports the wanted and the actual length and leaves the slice alone |
| Serialization.TakeCat | src/serialization/mod.rs:73-89 | What was put in front of a suffix is taken back and the suffix is left |
| Serialization.TakeVec16Cat | src/key_exchange/mod.rs:256-269 | A two-byte length prefix makes a string decodable in front of anything |
| Identifiers.ContextFrom | src/key_exchange/mod.rs:257-264 | A context is accepted exactly below 65536 bytes, with its two-byte length; absent means empty |
| Identifiers.FromIdentifier | src/key_exchange/mod.rs:326-341 | An identifier in force is the given one or else the public key, accepted exactly below 65536 bytes |
| Identifiers.FromIdentifiers | src/key_exchange/mod.rs:311-320 | Both identifiers in force, in their roles, or a serialization error |
| Identifiers.SerializedIdentifier.Flat | src/key_exchange/mod.rs:344-351 | What is hashed depends on the identifier's bytes only, not on whether it was given or defaulted |
| Primitives.TapeRng.FillBytes | src/opaque.rs:668-669 | A generator hands out the next bytes of its tape and advances by as many |
| Keypair.PkRoundTrip | src/keypair.rs:195-202 | A valid public key in front of any suffix parses back and leaves the suffix |
| Keypair.PkCanonical | src/keypair.rs:195-202 | A parsed public key is valid and the bytes taken are its serialization |
| Keypair.SkRoundTrip | src/keypair.rs:101-112 | A valid private key in front of any suffix parses back and leaves the suffix |
| Keypair.SkCanonical | src/keypair.rs:101-112 | A parsed private key is valid and the bytes taken are its serialization |
| Keypair.KeyPairRoundTrip | src/keypair.rs:164-173 | A key pair stored as its private half comes back if and only if its public half matched |
| Hkdf.Expand | src/opaque.rs:1036-1039 | HKDF-Expand succeeds exactly for a key of at least hash length and at most 255 output blocks, with the requested length |
| Hkdf.ExpandIsChain | src/opaque.rs:1036-1039 | Every output of HKDF-Expand is the front of a chain of HMAC blocks, each over the block before it, the info and its number (section 2.3 of RFC 5869) |
| Hkdf.Pkcs11Hkdf | tests/remote_key.rs:377-408 | The chunked HMAC loop with previous-block chaining and a truncated last block computes HKDF-Expand (section 2.3 of RFC 5869); it panics if and only if the output needs more than 255 blocks, or exactly 255 in a build with overflow checks, where the byte-sized block counter is stepped once too often |
| Hkdf.LabelInfoUnique | src/key_exchange/shared.rs:354-383 | The info string of a labelled expansion determines output length, label and context |
| Hkdf.ExpandLabelIsHmac | src/key_exchange/shared.rs:339-383 | A labelled expansion is one HMAC of the info string and never fails when the context fits one byte |
| Hkdf.KeysAreHmacs | src/key_exchange/shared.rs:233-271 | Handshake secret, session key and both MAC keys are single HMACs under their labels and the transcript hash |
| Hkdf.DeriveKeys | src/key_exchange/shared.rs:233-271 | Feeding the shared secrets one by one gives the key schedule of their concatenation |
| Envelope.EnvelopeRoundTrip | src/envelope.rs:259-272 | An envelope parses back in internal mode, so to itself if and only if its mode was internal |
| Envelope.EnvelopeCanonical | src/envelope.rs:264-272 | Parsing accepts exactly inputs that are long enough and always yields internal mode |
| Envelope.AadUnique | src/envelope.rs:304-310 | The authenticated data determines the server key and both identifiers |
| Envelope.SealRaw | src/envelope.rs:145-178 | The MAC fed nonce and chunks one by one is the MAC of their concatenation under the derived key |
| Envelope.OpenRaw | src/envelope.rs:218-241 | Opening recomputes that MAC and otherwise reports the HMAC error |
| Envelope.SealShape | src/envelope.rs:106-140 | Sealing yields an internal envelope of the right lengths, a valid public key and an export key of hash length |
| Envelope.SealComputes | src/envelope.rs:106-178 | The export key and the MAC key are HMACs of the randomized password under their labels; the MAC covers nonce, server key and both identifiers; the client's key is derived from a seed expanded under a third label |
| Envelope.OpenAfterSeal | src/envelope.rs:180-241 | Opening under the same password, server key and identifiers in force returns the export key and a key pair whose public half is the uploaded key (section 4.1 of RFC 9807) |
| Envelope.OpenAuthenticates | src/envelope.rs:180-241 | If an envelope opens under another server key or identifiers, two named strings collide under its HMAC key |
| Masking.XorInto | src/opaque.rs:1108-1112 | The loop XORs the data into the pad in place as far as both reach |
| Masking.ReadMasked | src/opaque.rs:1075-1083 | The in-place parser cuts nonce, hash and key off the slice |
| Masking.MaskedRoundTrip | src/opaque.rs:1069-1083 | A masked response in front of any suffix parses back and leaves the suffix |
| Masking.MaskedCanonical | src/opaque.rs:1069-1083 | Parsing succeeds exactly on long enough inputs, and the bytes taken are the serialization |
| Masking.MaskResponse | src/opaque.rs:1095-1121 | Masking with the pad in place computes the masked response |
| Masking.MaskIsXor | src/opaque.rs:1095-1121 | Byte by byte the response is a pad against server key, envelope nonce and envelope MAC, and the pad is a chain of HMACs under the masking key over the masking nonce and the label |
| Masking.MaskBinds | src/opaque.rs:1095-1121 | One record masked twice to the same bytes was masked under one key and one nonce, or the two named first-block inputs collide under HMAC: no pad is used again |
| Masking.MaskOk | src/opaque.rs:1095-1121 | Masking succeeds exactly when the key and the pad length permit HKDF, and its only error is that of HKDF |
| Masking.UnmaskResponse | src/opaque.rs:1123-1145 | Unmasking with the pad in place computes the server key and the envelope or a serialization error |
| Masking.UnmaskAfterMask | src/opaque.rs:1095-1145 | Unmasking returns the masked server key and envelope although pad and plaintext are cut at different places |
| Masking.UnmaskAfterWire | src/opaque.rs:1068-1145 | The same after the response was serialized and parsed, in front of any suffix |
| Masking.UnmaskErrors | src/opaque.rs:1123-1145 | For every masked response the only failure is a serialization error; success gives a valid key and an internal envelope |
| Transcript.DrawEphemeral | src/key_exchange/shared.rs:125-147 | An ephemeral key pair and a nonce come from consecutive generator bytes |
| Transcript.EphemeralOk | src/keypair.rs:65-74 | An ephemeral key is derived from one part of the tape and the nonce is the next; derived pairs match and are valid; the draw fails exactly when the derivation does, as a panic |
| Transcript.DecodeEncode | src/key_exchange/shared.rs:156-174 | A decoder reads every component of a transcript back, with any suffix |
| Transcript.EncodeInjective | src/key_exchange/shared.rs:156-174 | Equal transcripts have equal components and equal continuations |
| Transcript.TranscriptHasher | src/key_exchange/shared.rs:156-174 | The hasher fed component by component has absorbed the encoded transcript |
| Transcript.ComputeKe2Macs | src/key_exchange/shared.rs:275-300 | The server's MAC covers the transcript, the expected client MAC covers the transcript with that MAC |
| Transcript.FinalizeKe3 | src/key_exchange/shared.rs:307-337 | The client accepts exactly the MAC of its own transcript and answers with the MAC over both |
| Transcript.ConfirmationCompletes | src/key_exchange/shared.rs:275-337 | With equal transcripts and secrets the client accepts and answers as the server expects |
| Transcript.FinalizeErrors | src/key_exchange/shared.rs:307-337 | The client's check fails only as an invalid login |
| Transcript.FinalizeIs | src/key_exchange/shared.rs:307-337 | The client accepts if and only if the MAC is that of its own transcript and secrets; then its keys and its answer are the stated HMACs |
| Transcript.MacBinds | src/key_exchange/shared.rs:233-300 | Equal MACs under the client MAC keys of two sides force equal messages, transcripts, secrets and keys, or one of five pairs of inputs, each a stated function of the two sides, collides |
| Transcript.ConfirmationBinds | src/key_exchange/shared.rs:233-337 | If the client accepted and its answer is the expected MAC, transcripts, secrets, MAC and all keys are equal, or one of six pairs of inputs computed from the two sides collides |
| TripleDh.MakeKe2Builder | src/key_exchange/tripledh.rs:162-196 | The builder holds the transcript and two of three shared secrets, drawn from the generator |
| TripleDh.BuildKe2 | src/key_exchange/tripledh.rs:212-248 | Resuming the hasher computes the second message and the state |
| TripleDh.GenerateKe3 | src/key_exchange/tripledh.rs:250-297 | The client's step on a fresh hasher computes its keys and answer |
| TripleDh.TranscriptsAgree | src/key_exchange/shared.rs:156-174 | Equal transcript bytes mean equal views, nonces, ephemeral keys and suffixes |
| TripleDh.ServerComputes | src/key_exchange/tripledh.rs:162-248 | Session key, MAC and expected answer of the server are the key schedule of its transcript and the three named Diffie-Hellman values |
| TripleDh.ClientVerdict | src/key_exchange/tripledh.rs:250-297 | The client accepts if and only if the MAC is that of its transcript and its three named Diffie-Hellman values; then its session key and its answer follow from them |
| TripleDh.Agreement | src/key_exchange/tripledh.rs:212-311 | For any second message given to the client: if both sides accept they hold the same context, identifiers, messages, nonces, keys, secrets and session key, or one of the six candidate pairs of the two sides collides (section 6.4 of RFC 9807) |
| TripleDh.Completeness | src/key_exchange/tripledh.rs:162-311 | Honest parties with equal views whose draws derive ephemeral keys finish with equal session keys |
| TripleDh.GenerateKe3Errors | src/key_exchange/tripledh.rs:250-297 | The client's step fails only as an invalid login |
| TripleDhKem.MakeKe2Builder | src/key_exchange/tripledh_kem.rs:383-431 | The builder's hasher has also absorbed the KEM key and the ciphertext |
| TripleDhKem.BuildKe2 | src/key_exchange/tripledh_kem.rs:447-491 | Resuming the hasher computes message and state from four secrets |
| TripleDhKem.GenerateKe3 | src/key_exchange/tripledh_kem.rs:493-557 | The client's step with decapsulation computes its keys and answer |
| TripleDhKem.KemSuffix | src/key_exchange/tripledh_kem.rs:413-418 | KEM key and ciphertext are a suffix of the transcript, so the transcript with them is uniquely decodable too |
| TripleDhKem.ServerComputes | src/key_exchange/tripledh_kem.rs:383-491 | The same with KEM key and ciphertext in the transcript and the encapsulated secret as the fourth |
| TripleDhKem.ClientVerdict | src/key_exchange/tripledh_kem.rs:493-557 | The same if and only if for the client, with the decapsulated secret |
| TripleDhKem.Agreement | src/key_exchange/tripledh_kem.rs:447-571 | Agreement also on KEM key, ciphertext and encapsulated secret, or one of the six candidate pairs of the two sides collides |
| TripleDhKem.Completeness | src/key_exchange/tripledh_kem.rs:364-571 | The same when the client generated the KEM key |
| TripleDhKem.GenerateKe3Errors | src/key_exchange/tripledh_kem.rs:493-557 | The client's step fails only as an invalid login |
| SigmaMessage.HashBoth | src/key_exchange/sigma_i/message.rs:112-120 | Hashing the context once and cloning the hasher gives both pre-hashes |
| SigmaMessage.Duality | src/key_exchange/sigma_i/message.rs:105-182 | In either role the bytes a party signs are exactly the bytes its peer verifies |
| SigmaMessage.PreHashRefinesCache | src/key_exchange/sigma_i/message.rs:112-229 | The stored pre-hashes are the hashes of the signed message and of the message rebuilt from the cache |
| SigmaMessage.MessageUnique | src/key_exchange/sigma_i/message.rs:122-182 | A decoder reads every component of a role message back |
| SigmaMessage.SignedBytesInjective | src/key_exchange/sigma_i/message.rs:105-182 | Equal signed bytes of one role mean equal context, identifier and cached components |
| SigmaMessage.RolesMeet | src/key_exchange/sigma_i/message.rs:105-182 | Exactly when a server and a client, whose messages carry no role tag, can sign the same bytes: the contexts are equal, the server identifier is one MAC length longer than the client identifier, and what of the length-prefixed client identifier reaches past the first message is a prefix of the length-prefixed server identifier |
| SigmaMessage.RolesOnRistretto | src/key_exchange/sigma_i/message.rs:105-182 | With the lengths of Ristretto255, SHA-512 and Ed25519 and the client identified by its public key: exactly for server identifiers of 96 bytes, so never when both identifiers default to public keys |
| SigmaI.Sign | src/key_exchange/sigma_i/mod.rs:109-127 | Signing draws the scheme's random bytes and keeps the cache or its pre-hash |
| SigmaI.MakeKe2Builder | src/key_exchange/sigma_i/mod.rs:257-327 | The builder holds the message to sign, the session key and the expected MAC over the client identifier |
| SigmaI.GenerateKe3 | src/key_exchange/sigma_i/mod.rs:367-452 | The client checks the server's MAC, signs, and verifies the server's signature |
| SigmaI.RoutesAgree | src/key_exchange/sigma_i/mod.rs:335-479 | Through the pre-hash or through the cached message a party signs the same and reaches the same verdict |
| SigmaI.FinishRoutesAgree | src/key_exchange/sigma_i/mod.rs:454-479 | With the start's context and identifier the server's last step has one outcome on both routes |
| SigmaI.Completeness | src/key_exchange/sigma_i/mod.rs:257-479 | The same for SIGMA-I, on either route |
| SigmaI.GenerateKe3Errors | src/key_exchange/sigma_i/mod.rs:367-452 | The client's step fails only as an invalid login |
| SigmaVerdict.SignatureIs | src/key_exchange/sigma_i/mod.rs:109-127 | A party signs the bytes of its role, or their hash when the scheme has a pre-hash |
| SigmaVerdict.ServerComputes | src/key_exchange/sigma_i/mod.rs:257-327 | Session key and both MACs of the server are the key schedule of transcript and ephemeral secret, over the two identifiers; the message to sign holds its MAC |
| SigmaVerdict.ServerVerdict | src/key_exchange/sigma_i/mod.rs:454-479 | The server's last step succeeds if and only if the identifier is in range, the client's signature verifies under its registered key on the client's message or its hash, and the MAC is the expected one; otherwise its error is stated |
| SigmaVerdict.ClientVerdict | src/key_exchange/sigma_i/mod.rs:367-452 | The client accepts if and only if the server's MAC over its identifier is right and its signature verifies under the recovered key on the server's message or its hash; then session key, MAC and signature are those of its transcript and message |
| SigmaAgreement.Agreement | src/key_exchange/sigma_i/mod.rs:257-479 | For any message and any signatures: if both sides accept they agree on context, identifiers, messages, nonces, ephemeral keys, secret and session key, or one of the five candidate pairs of the two sides collides |
| SigmaAgreement.SignaturesAgree | src/key_exchange/sigma_i/mod.rs:367-479 | When both sides accept and agree, both signatures verify on the messages of one view |
| KeyExchanges.Ke1KeysMatch | src/key_exchange/shared.rs:125-147 | The client keeps the private half of the ephemeral key it sends, the nonce it sends and the KEM's decapsulation key, drawn from consecutive parts of its tape |
| KeyExchanges.ExchangeCompletes | src/key_exchange/mod.rs:71-126 | Whichever exchange is selected, honest runs whose draws derive ephemeral keys complete with one session key |
| KeyExchanges.RunSucceeds | src/key_exchange/mod.rs:76-103 | When its draw derives a key, the server's part of any exchange fails only for a KEM key it cannot read |
| KeyExchanges.Ke3Errors | src/key_exchange/mod.rs:107-118 | Whichever exchange is selected, the client's step fails only as an invalid login |
| KeCodecs.Ke1StateCodec | src/key_exchange/shared.rs:401-420 | Parsing a serialized state in front of any suffix returns it and the suffix; what parses is its own serialization |
| KeCodecs.Ke1MessageCodec | src/key_exchange/shared.rs:423-442 | The same for first messages |
| KeCodecs.DhStateCodec | src/key_exchange/tripledh.rs:319-353 | The same for the server state of triple Diffie-Hellman |
| KeCodecs.DhMessageCodec | src/key_exchange/tripledh.rs:356-389 | The same for its second message |
| KeCodecs.DhThirdCodec | src/key_exchange/tripledh.rs:392-417 | The same for its third message |
| KeCodecs.KemKe1StateCodec | src/key_exchange/tripledh_kem.rs:576-597 | The same for the client state with a decapsulation key |
| KeCodecs.KemKe1MessageCodec | src/key_exchange/tripledh_kem.rs:600-621 | The same for first messages with a KEM key |
| KeCodecs.KemStateCodec | src/key_exchange/tripledh_kem.rs:624-667 | The same for the server state with KEM key and ciphertext |
| KeCodecs.KemMessageCodec | src/key_exchange/tripledh_kem.rs:670-705 | The same for second messages with a ciphertext |
| KeCodecs.SigmaMessageCodec | src/key_exchange/sigma_i/mod.rs:527-563 | The same for SIGMA-I second messages |
| KeCodecs.SigmaThirdCodec | src/key_exchange/sigma_i/mod.rs:566-596 | The same for SIGMA-I third messages |
| KeCodecs.PartsCodec | src/key_exchange/mod.rs:184-237 | The same for serialized credential responses |
| KeCodecs.CachedCodec | src/key_exchange/sigma_i/message.rs:232-306 | The same for cached messages |
| KeCodecs.VerifyStateCodec | src/key_exchange/sigma_i/shared.rs:23-40 | The same for either kind of verification state |
| KeCodecs.SigmaStateCodec | src/key_exchange/sigma_i/mod.rs:482-524 | The same for SIGMA-I server states with a nested verification state |
| Messages.FirstCodec | src/messages.rs:345-382 | The same for the first message of the selected exchange |
| Messages.ClientStateCodec | src/opaque.rs:469-505 | The same for the client state of the selected exchange |
| Messages.ServerStateCodec | src/opaque.rs:622-640 | The same for the stored server login |
| Messages.SecondCodec | src/messages.rs:404-445 | The same for the second message of the selected exchange |
| Messages.ThirdCodec | src/messages.rs:476-493 | The same for credential finalizations |
| Messages.RegistrationRequestCodec | src/messages.rs:230-243 | Registration requests round-trip, and exact-length accepted input re-serializes to itself |
| Messages.RegistrationResponseCodec | src/messages.rs:252-278 | The same for registration responses |
| Messages.UploadCodec | src/messages.rs:300-321 | Records come back with their mode internal, and exact-length accepted input re-serializes to itself |
| Messages.ClientRegistrationCodec | src/opaque.rs:278-305 | The same for stored client registrations |
| Messages.CredentialRequestCodec | src/messages.rs:345-382 | Credential requests round-trip in front of any suffix, and what parses is its own serialization |
| Messages.CredentialResponseCodec | src/messages.rs:404-445 | The same for credential responses |
| Messages.ClientLoginCodec | src/opaque.rs:469-505 | The same for stored client logins |
| Messages.SetupCodec | src/opaque.rs:204-231 | The same for server setups, for key pairs whose halves match |
| Layout.RegistrationLayout | src/messages.rs:230-278 | The offset of every field of a registration request and response |
| Layout.UploadLayout | src/messages.rs:300-321 | The same for a record: public key, masking key, envelope nonce, envelope MAC |
| Layout.FirstLayout | src/key_exchange/shared.rs:423-442 | The same for first messages: nonce, public key, KEM key |
| Layout.CredentialRequestLayout | src/messages.rs:345-382 | The same for credential requests |
| Layout.DhLayout | src/key_exchange/tripledh.rs:356-389 | The same for second messages: nonce, public key, MAC |
| Layout.KemLayout | src/key_exchange/tripledh_kem.rs:670-705 | With a KEM the ciphertext stands behind the MAC |
| Layout.SigmaLayout | src/key_exchange/sigma_i/mod.rs:527-563 | In SIGMA-I the signature stands in front of the MAC |
| Layout.CredentialResponseLayout | src/messages.rs:404-445 | The offset of every field of a credential response, the masked record cut into nonce, hash and key |
| Layout.ThirdLayout | src/messages.rs:476-493 | The same for credential finalizations |
| Layout.SetupLayout | src/opaque.rs:204-231 | The same for stored server setups |
| Layout.ClientLayout | src/opaque.rs:278-505 | The same for stored client registrations and logins |
| Layout.SigmaStateLayout | src/key_exchange/sigma_i/mod.rs:482-524 | The same for SIGMA-I server states |
| Readers.ReadServerState | src/opaque.rs:630-640 | Parsing in place a slice that holds a serialized server login in front of any suffix returns it and leaves exactly the suffix; on any input the outcome is that of the parsing function |
| Readers.ReadThird | src/messages.rs:484-493 | The same for credential finalizations |
| Readers.ReadCredentialRequest | src/messages.rs:367-382 | The same for credential requests |
| Readers.ReadCredentialResponse | src/messages.rs:426-445 | The same for credential responses, of whichever exchange |
| Readers.ReadClientLogin | src/opaque.rs:488-505 | The same for stored client logins, which nest a request and a state |
| Readers.ReadSetup | src/opaque.rs:220-231 | The same for server setups, for key pairs whose halves match |
| Readers.ReadRegistrationRequest | src/messages.rs:235-243 | Parsing in place a serialized registration request in front of any suffix returns it |
| Readers.ReadRegistrationResponse | src/messages.rs:266-278 | The same for registration responses |
| Readers.ReadUpload | src/messages.rs:315-321 | The same for records whose envelope is in internal mode |
| Readers.ReadClientRegistration | src/opaque.rs:291-305 | The same for stored client registrations |
| EndToEnd.Unblind | src/opaque.rs:1009-1017 | Unblinding cancels blinding, so the OPRF value does not depend on the blind |
| EndToEnd.ReflectionIsUniform | src/opaque.rs:337-344 | If one blinded element is reflected by a key then every one is: the key acts as one |
| KeyMaterial.EvaluationIs | src/opaque.rs:431-450 | A server's evaluation multiplies by the key derived from a chain of HMACs under the seed, over the credential identifier and the label |
| KeyMaterial.MaterialBinds | src/opaque.rs:190-202 | Two credential identifiers with one key material are equal, or two different named inputs of HMAC under the seed agree on as many bytes as material and hash have; a collision of HMAC when the material is as long as the hash |
| KeyMaterial.PasswordKeyIs | src/opaque.rs:1009-1029 | The randomized password is exactly the extraction, under a key of zeros, of the OPRF output followed by the stretched output; the OPRF output is the hash of password, unblinded element and label |
| KeyMaterial.PasswordKeyBinds | src/opaque.rs:1009-1029 | Two runs with one randomized password have password, OPRF element and stretched output in common, or one of two stated pairs of inputs collides |
| EndToEnd.PasswordKeyIgnoresBlind | src/opaque.rs:1009-1029 | The randomized password is the same for every blind |
| EndToEnd.RegistrationFacts | src/opaque.rs:309-381 | What a finished registration shows: the key is derived from the credential identifier's HMAC chain, the randomized password is extracted from the OPRF output and its stretching, and the record is masked and sealed with them |
| EndToEnd.ServerPrepares | src/opaque.rs:661-704 | The response carries the evaluation by the credential's key, the masked record and the identifiers in force |
| EndToEnd.StartShows | src/opaque.rs:648-798 | What a server's answer shows, with or without a record: the evaluation for the credential identifier, the masking nonce drawn behind the first bytes of the tape, and the masked record, a fake one being zeros masked under those first bytes |
| EndToEnd.ClientRecovers | src/opaque.rs:558-591 | From an honest response the client recovers its registered key pair, the export key and the server's key |
| EndToEnd.SamePassword | src/opaque.rs:541-556 | A login derives the registration's randomized password and never sees a reflected element |
| EndToEnd.LoginStarts | src/opaque.rs:511-798 | For a registered client and any password with an OPRF element, the first steps of both sides succeed if and only if their draws derive ephemeral keys, and otherwise panic |
| EndToEnd.LoginExchange | src/opaque.rs:535-821 | The key exchange inside an honest login completes when both draws derive ephemeral keys |
| EndToEnd.LoginCompletes | src/opaque.rs:309-821 | Completeness for all three exchanges: once a registration finished, every login with the same inputs, identifiers given or defaulted at any step, succeeds if and only if both sides' draws derive an ephemeral key, with equal session keys, the registered export key and the server's key; otherwise it is the panic of that draw, never a rejection |
| Wellformedness.RunWellFormed | src/key_exchange/mod.rs:76-103 | The server's message and state always survive their encodings |
| Wellformedness.Ke3WellFormed | src/key_exchange/mod.rs:107-118 | So does the client's last message, and its session key has hash length |
| Wellformedness.StartWellFormed | src/opaque.rs:511-531 | So do the client's first message and stored state |
| Wellformedness.NewSetupWellFormed | src/opaque.rs:159-253 | A new server setup has a matching key pair, a valid dummy key and a seed of hash length, from parts of the tape that follow each other |
| Wire.StartedWellFormed | src/opaque.rs:775-798 | Whatever the record, a started server login has a well-formed response and state |
| Wire.RegistrationSurvivesWire | src/opaque.rs:276-450 | Sending every registration message and storing every state as bytes changes no outcome, success or failure |
| Wire.LoginSurvivesWire | src/opaque.rs:467-821 | Sending every login message and storing every state as bytes changes no outcome, success or failure |
| Wire.WireLoginCompletes | src/opaque.rs:276-821 | The same if and only if when both processes keep only bytes |
| LoginAgreement.ExchangeAgreement | src/key_exchange/mod.rs:100-126 | Agreement for whichever exchange is selected, or one of its candidate pairs collides |
| LoginAgreement.LoginAgreement | src/opaque.rs:535-821 | Whole logins, with a stored or a fake record: for any response the client is given, if both sides accept then the server answered this client's request, the response is the server's, and context, both identifiers in force and session key are equal; with identifiers defaulted the client recovered the key pair of the record; under SIGMA-I both accepted signatures verify on the bytes of their roles. Otherwise one of the candidate pairs of the exchange inside collides |
| LoginErrors.FinishErrors | src/opaque.rs:535-617 | For every response and password: reflection exactly when the element came back unchanged; otherwise a password that is too long, the failed stretching of this OPRF output and the failed key derivation of this envelope's seed each give their own error, in that order; what remains is success, an invalid login, or a serialization error, the last only and success never with a context or identifier that is too long |
| LoginErrors.OnlyInvalidLogin | src/opaque.rs:535-617 | With context and identifiers in range, success, reflection and an invalid login are the only outcomes if and only if the element was reflected, or the password is in range and neither this stretching nor this derivation fails |
| LoginErrors.RegistrationReflects | src/opaque.rs:329-381 | A registration reports reflection exactly when the element came back unchanged |
| LoginErrors.ZeroModeUnreachable | src/envelope.rs:180-272 | The zero mode of a fake record never reaches open: unmasking always restores internal mode, although opening the fake envelope itself would report the mode |
| FakeLogin.RunShowsTape | src/key_exchange/shared.rs:178-229 | Success, tape use and everything the server's part shows in clear depend on the tape and the client's first message alone |
| FakeLogin.ResponseLength | src/messages.rs:404-423 | The length of a response is fixed by the cipher suite |
| FakeLogin.FakeLooksReal | src/opaque.rs:648-717 | On one tape a login with a record and one without succeed in the same cases and otherwise fail with the same error, a panicking draw included; on success both have consumed the same bytes and show equal evaluation, nonces, ephemeral key and KEM ciphertext in responses of equal length |
| Endpoints.MakeLoginBuilder | src/opaque.rs:648-717 | The server's builder step by step, with the fake record's key drawn whether or not it is needed |
| Endpoints.StartLogin | src/opaque.rs:775-798 | The server's start step by step |
| Endpoints.SealEnvelope | src/envelope.rs:106-140 | Sealing step by step, with the nonce from the generator |
| Endpoints.OpenEnvelope | src/envelope.rs:180-214 | Opening step by step |
| Endpoints.FinishRegistration | src/opaque.rs:329-381 | The client's registration step by step |
| Endpoints.Recover | src/opaque.rs:558-591 | Unmasking and opening step by step, both mapped to an invalid login |
| Endpoints.FinishLogin | src/opaque.rs:535-617 | The client's finish step by step |
| Remote.RemoteInput | tests/remote_key.rs:441-515 | A module's raw secret or signature is the input the local key would have given |
| Remote.BuilderIgnoresSecrets | src/opaque.rs:648-717 | The builder depends on neither seed nor private key |
| Remote.RemoteLogin | tests/remote_key.rs:262-285 | With key material from the hand-written HKDF and a module that computes with the key, the remote route gives the response and state of a local start; whatever random bytes the module signs with, it is the local start whose signature draws those bytes; where that HKDF panics the outcome is the panic; its evaluation is that for the credential identifier |
| Remote.RemoteRegistration | tests/remote_key.rs:236-248 | With key material from the hand-written HKDF the server answers a registration as it would locally; where that HKDF panics the outcome is the panic; its evaluation is that for the credential identifier |
| Ed25519.PublicKeyParses | src/key_exchange/group/ed25519.rs:314-331 | No seed yields the identity, so every public key passes the parser that refuses the identity |
| Ed25519.Sign | src/key_exchange/group/ed25519.rs:150-186 | The chunked, twice-absorbed computation is the signature of section 5.1.6 of RFC 8032 of the concatenated message |
| Ed25519.Verify | src/key_exchange/group/ed25519.rs:188-218 | The chunked computation accepts exactly when the expected point encodes to R |
| Ed25519.VerifyAcceptsSign | src/key_exchange/group/ed25519.rs:150-218 | Every signature verifies, for every seed, message, mode and way of chunking on either side |
| Ed25519.AcceptsIsEquation | src/key_exchange/group/ed25519.rs:188-218 | For an R that encodes a point, acceptance is the equation sB = R + kA (section 5.1.7 of RFC 8032, without cofactor), k being the reduced hash of the domain, R, the public key and the message |
| Ed25519.AcceptedMessage | src/key_exchange/group/ed25519.rs:188-218 | One signature accepted under a seed's key for two messages: the two challenges take the key to one point, and, the order being prime, the messages are equal or two different named inputs have one reduced hash |
| Ed25519.NonceMessage | src/key_exchange/group/ed25519.rs:150-186 | R is the multiple of the base by the reduced hash of the domain, the second half of the hashed seed and the message; two signatures with one R are of one message, or two different named inputs have one reduced hash |
| Ed25519.SecondHalfUnique | src/key_exchange/group/ed25519.rs:188-218 | At most one reduced s is accepted for a given R, key and message |
| EdDsaScheme.SignatureRoundTrip | src/key_exchange/group/ed25519.rs:403-417 | A signature in front of any suffix parses back and leaves the suffix |
| EdDsaScheme.SignatureCanonical | src/key_exchange/group/ed25519.rs:403-417 | What parses has a reduced second half and is its own serialization |
| EdDsaScheme.VerifyIsEquation | src/key_exchange/group/ed25519.rs:75-145 | On bytes, the scheme accepts exactly reduced second halves that meet that equation for a key other than the identity |
| EdDsaScheme.KeyGroupLawful | src/key_exchange/group/ed25519.rs:33-73 | Ed25519 keys meet the laws of a static key group |
| EdDsaScheme.KeyIs | src/key_exchange/group/ed25519.rs:33-73 | A private key is 32 drawn or given bytes, and its public key encodes the base times the clamped first half of their hash |
| EdDsaScheme.SchemeLawful | src/key_exchange/group/ed25519.rs:75-145 | The hand-written scheme meets the laws SIGMA-I relies on, in pure and pre-hash mode |
| Curve25519.ClampIsCanonical | src/key_exchange/group/curve25519.rs:42-53 | Clamping gives a multiple of 8 in [2^254, 2^255) and changes exactly the strings that are none |
| Curve25519.ParserAcceptsImage | src/key_exchange/group/curve25519.rs:118-126 | The parser accepts exactly the image of clamping, which are exactly those values (section 5 of RFC 7748) |
| Curve25519.DerivedRoundTrips | src/key_exchange/group/curve25519.rs:51-67 | Every derived key survives being stored in front of any bytes |
| Curve25519.RandomSk | src/key_exchange/group/curve25519.rs:42-49 | A random key is the clamp of 32 generator bytes, and such a value |
| YParity.DeriveSecret | tests/remote_key.rs:562-604 | The buffer is tag and x-coordinate; the module's refusal at the negated generator is the only failure |
| YParity.TagIsParity | tests/remote_key.rs:577-603 | The tag is right if and only if not: the client key is the generator, the server key has odd y, and its double has the x that the library gives the identity |
| YParity.TagRightAwayFromGenerator | tests/remote_key.rs:562-604 | For all other client keys the output is the compressed secret |
| YParity.TagWrongAtGenerator | tests/remote_key.rs:592-601 | On the curve y^2 = x^3 + x + 1 over the field of 7 elements, whose five points are the multiples of (2, 5), with that generator as client and as server key: y is odd, the double (0, 6) has the x of the identity, and the tag is wrong |
| CycleRng.ReverseSlice | src/tests/mock_rng.rs:33-35 | In-place reversal of a slice leaves the rest alone |
| CycleRng.RotateLeft | src/tests/mock_rng.rs:27-36 | Three reversals move a prefix behind the rest, for every length and step count |
| CycleRng.Rng.FillBytes | src/tests/mock_rng.rs:57-65 | One request writes at most one turn of the buffer and rotates it |
| CycleRng.ServedIsRepetition | src/tests/mock_rng.rs:57-65 | From any position, requests no longer than the buffer receive consecutive bytes of the endless repetition |
| CycleRng.GeneratorCycles | src/tests/mock_rng.rs:10-24 | From the start the output is a prefix of the endless repetition of the initial buffer |
| CycleRng.LongRequestBreaksOff | src/tests/mock_rng.rs:57-65 | A longer request receives one turn only and leaves the end of the destination |
| Locker.DecryptAfterEncrypt | examples/digital_locker.rs:68-90 | Decryption undoes encryption under the same key, the nonce being in front |
| Locker.EncryptIs | examples/digital_locker.rs:68-78 | A ciphertext is the nonce and what the cipher seals under the first 32 bytes of the key, in that order |
| Locker.ShownIs | examples/digital_locker.rs:193-212 | A message is shown exactly when the contents, sealed under the server's session key, open under the client's and the result opens under the export key to that message |
| Locker.CredentialIdUnique | examples/digital_locker.rs:94-113 | Lockers whose numbers fit a machine word have different credential identifiers, of word length |
| Locker.RegisterLockerStores | examples/digital_locker.rs:94-144 | A locker is registered exactly when the registration inside succeeds, and holds its record and the message sealed with its export key |
| Locker.OpeningIs | examples/digital_locker.rs:147-213 | Under any password all encodings drop out of an opening: it fails with the first steps, reports an incorrect password when the client rejects the server's answer, and otherwise ends as the steps after acceptance do |
| Locker.StartsWhenDrawn | examples/digital_locker.rs:147-178 | The first steps of an opening fail exactly for a password without OPRF element or a draw that derives no key |
| Locker.OpenReturnsMessage | examples/digital_locker.rs:147-213 | Opening with the registered password shows exactly the stored message, both layers undone, if and only if both draws derive an ephemeral key, and panics otherwise |
| Locker.OpeningExpected | examples/digital_locker.rs:147-213 | Under any password: an incorrect password is reported exactly when the client rejects; a panic happens exactly when a draw derives no key or, under a wrong password only, the password has no OPRF element or the client accepts and a later step fails; under the registered password the stored message is shown |
| Locker.Vault.Register | examples/digital_locker.rs:227-242 | A new locker gets the next number as credential identifier; others stay; it fails exactly when the registration inside fails |
| Locker.Vault.Open | examples/digital_locker.rs:243-280 | An unknown number is not found; a known one shows what it must or panics, as stated for openings under any password |
| Locker.Vault.Serve | examples/digital_locker.rs:215-294 | Over every history of registrations and openings locker i was registered under identifier i and stays unchanged, and every output is the expected one, under wrong passwords too; the process ends early at the first command that panics and only there: a registration that fails, or an opening that panics as stated |
| Instance.RegistrationSucceeds | src/opaque.rs:276-450 | On exponents modulo any prime every registration with fitting inputs succeeds, so completeness is not vacuous |
| Instance.SuitesLawful | src/ciphersuite.rs:20-55 | All laws hold together for each exchange on exponents modulo a prime, SIGMA-I with the hand-written EdDSA |
| Instance.LoginsSucceed | src/opaque.rs:276-821 | On these suites the whole protocol runs to equal session keys, so the premises of completeness and agreement can be met |

## Left out

- Primitives: the internals of hashes, HMAC, the OPRF library, ML-KEM, ECDSA, key stretching and curve arithmetic are library code; they appear through their laws.
- EndToEnd.LoginCompletes: the KEM law says that decapsulating an honest ciphertext always gives the encapsulated secret, so the negligible decryption failures of ML-KEM are not modelled.
- LoginAgreement.LoginAgreement: under SIGMA-I the accepted signatures verify on the agreed bytes but need not be those that were sent, because a scheme may have several valid signatures; unforgeability is not modelled.
- TripleDh.Agreement: the last step of both Diffie-Hellman exchanges ignores the identifiers and the context given at the end, in the code and in the model, so nothing is claimed about them.
- Messages.RegistrationRequestCodec: the OPRF library's own parser is not part of this model; it is taken to read one element and to ignore what follows.
- Locker.OpenReturnsMessage: strings are byte strings, and the final UTF-8 check, which cannot fail under the registered password, is not modelled; readline and the printed menu are left out.
- SigmaMessage.RolesMeet: elements and keys inside a cached message are byte strings of the right length, as the cache holds and parses them; whether they also are valid encodings in a group is not asked.
- CycleRng.Rng.FillBytes: the 32-bit and 64-bit convenience calls only forward to it and are left out.
- Decoders of hashed encodings (transcript, authenticated data, role messages, labels) exist only in the proofs of unique decoding; the crate has none.
- The ephemeral hashers kept in builder states are represented by the bytes they have absorbed.
- Error variants that no modelled step returns (hashing to a scalar, a bad HMAC key, KEM and custom errors) are left out or unused.
- Setups whose private key or seed is another type than bytes appear only through the remote route; their own encodings and errors are left out.
- Zeroization, constant-time comparison and secrecy or indistinguishability as probabilities are not expressible here.
- serde derives and visitors, type-level length bounds, trait plumbing, formatting, PKCS#11 sessions, benchmarks and the vector parser have no algorithmic content.
- The wrappers for ECDSA, EdDSA, Ristretto255 and elliptic-curve groups are represented by the abstract signature and group laws.
