# rayFlex core, modelled in Dafny

rayFlex is a C++ game framework built on raylib. Most of it is glue to the
GPU, the audio device, physics engines and sockets. This project models the
parts of it that are plain sequential logic, one Dafny module per
component, and proves what each of them promises:

- **Packet** (`Packet.dfy`): packet framing. A header holds `id`, `size` and a 24-byte nonce, and the body is a byte stack. Values are pushed onto its tail and popped back, and every mutation keeps `header.size` equal to the body length. Push followed by pop is proved to return the value and restore the packet.
- **Handshake** (`Handshake.dfy`): the challenge/response handshake. `Scramble` reverses the bytes of each 8-byte word of a 32-byte challenge, and it is proved to be an involution. The module also covers the server and client buffers, the byte-wise validity check and the one-shot `InitSodium` latch. An honest client's answer is proved to pass the server's check.
- **Encryption** (`Encryption.dfy`): the control flow around the secret-box primitives, which are parameters with an open-after-seal law. This covers:
  - the empty-body passthrough;
  - `IsEncrypted` (some nonce byte is non-zero);
  - the body growing and shrinking by the MAC length;
  - the nonce zeroed after decryption;
  - the packet left untouched on failure.
- **Sprite** (`Sprite.dfy`): sprite-sheet animation. It covers the animation and instance maps, frame stepping (wrapping or clamping by direction and loop flag), `GotoFrame`, the frame rectangle's column/row arithmetic, `IsAnimFinished`, `ClearInstances` (which keeps `"main"`) and the move operations.
- **Particles** (`Particles.dfy`): the fixed-capacity particle pool. `Emit` appends up to capacity. `Update` walks backwards and removes dead particles by swapping in the last live one. It is proved to keep exactly the surviving particles, as a multiset.
- **MusicManager** (`MusicManager.dfy`): streams and playlists. It covers the playlist creation rules, next/previous cycling, a random next track that differs from the current one, and the end-of-track decision in `Update`. Audio calls are recorded as a log of effects.
- **AssetManager** (`AssetManager.dfy`): the typed asset store. `Add` never overwrites, `AddOrReplace` always does, and `Get` gives null for a missing name. Indexing inserts an empty asset.
- **SaveManager** (`SaveManager.dfy`): the versioned save file (`[version][payload]`) over a file system modelled as a map from paths to bytes. It covers `Load`'s four return codes and the incompatible-version callback. Writing and then loading is proved to give back the same data.
- **App** (`App.dfy`): the state scheduler, covering `SetState`, `Transition`, progress accumulation and promotion of the next state, the main loop's enter and exit sequencing, and the `Loading` fade and post-task latch. Callbacks are recorded as a log of events. The model proves that every `Exit` and `Update` goes to a state that is entered. It also proves that after `Run` no state is left entered, and that `Loading`, which reads the worker's flag for the post-task latch and again (once or twice) for the fade, can leave the screen transparent without running the post-task, while a loop reading it once cannot.
- **Lights** (`Lights.dfy`): light capacity and the shadow atlas. It covers the bit-smearing `nearestUpperSquare` on `uint32`, the rules of `AddLight`/`AddShadowLight` with the fall-back when there is no atlas, the tile layout, and the lights' setters. `Common.dfy` holds the fixed-width integer conversions and the value types the modules share.

Stateful parts are classes whose fields the methods update, with the whole new state stated in each method's contract. Pure parts are functions with lemmas about them.

One observation about the light atlas, which is not a defect claim: the side of each tile is `bufferSize / NextPow2(n)` for `n` shadow casters. Since `n <= NextPow2(n)`, every tile lies in the top row of the `bufferSize × bufferSize` atlas. The layout loop's wrap to a lower row is therefore never taken, and the rows below the first stay unused (`Lights.AtlasLayout`, `Lights.Lights.TileOf`).

## Model

| member | source | states |
|---|---|---|
| Packet.FreshHeader | include/net/rfPacket.hpp:25-27 | the header `Packet(id)` builds carries `id`, size 0 and a 24-byte all-zero nonce |
| Packet.Packet.Default | include/net/rfPacket.hpp:40-46 | `Packet()` has id 0, size 0, a zero nonce and an empty body |
| Packet.Packet.constructor | include/net/rfPacket.hpp:53 | `Packet(id)` has an empty body, size 0 and an all-zero nonce |
| Packet.Packet.WithData | include/net/rfPacket.hpp:62-66 | `Packet(id, data)` is `Packet(id)` after one push: the body is the data's bytes and `size` their count |
| Packet.Packet.Copy | include/net/rfPacket.hpp:38-41 | a copy has the same header and the same body |
| Packet.Packet.Clear | include/net/rfPacket.hpp:84-89 | `clear` empties the body and zeroes `size`, leaving `id` and `nonce` as they were |
| Packet.Packet.Replace | include/net/rfPacket.hpp:91-96 | `replace(data, n)` makes the body exactly the first `n` bytes of `data` and `size` equal to `n`; `id` and `nonce` stay |
| Packet.Packet.Push | include/net/rfPacket.hpp:125-145 | a push appends exactly the value's bytes at the tail, keeps every earlier byte, and re-syncs `size` with the body length |
| Packet.Packet.Pop | include/net/rfPacket.hpp:155-175 | a pop needs at least `width` bytes, returns the trailing `width` bytes, shrinks the body to what came before them (body + value == old body) and re-syncs `size` |
| Packet.PushThenPop | include/net/rfPacket.hpp:125-175 | popping right after a push of the same width returns the pushed bytes and restores the previous body and header |
| Packet.OwnedPacket.constructor | include/net/rfPacket.hpp:193-199 | an owned packet carries the wrapped packet's header and body unchanged, plus its remote |
| Packet.PushAllPopAll | include/net/rfPacket.hpp:111-175 | pushing any values in order and popping their widths last first returns the values last first and restores the original body (LIFO round trip over whole sequences) |
| Handshake.StoreLE | source/net/rfSecurity.cpp:36 | a `uint64_t` stored through the block pointer occupies exactly eight bytes, least significant first |
| Handshake.StoreLoad | source/net/rfSecurity.cpp:36-51 | storing a block loaded through the `uint64_t*` gives back the same eight bytes |
| Handshake.ByteSwapLoad | source/net/rfSecurity.cpp:38-49 | the eight masked shifts turn the load of bytes b0..b7 into the load of b7..b0 |
| Handshake.ByteSwap64 | source/net/rfSecurity.cpp:38-49 | the eight masked shifts reverse the byte order of the 64-bit value: byte k of the result (least significant first) is byte 7-k of the block |
| Handshake.ByteSwapReversesBlock | source/net/rfSecurity.cpp:36-51 | with the block loaded and stored little-endian through the `uint64_t*` (the only byte order modelled), one pass reverses the order of the block's eight bytes in memory |
| Handshake.ScrambleIndex | source/net/rfSecurity.cpp:34-52 | the byte at position i after the mix comes from the same 8-byte block, at the mirrored offset 7 - i mod 8 (no byte crosses a block boundary) |
| Handshake.Scrambled | source/net/rfSecurity.cpp:29-53 | the mixed challenge has the same length as the original |
| Handshake.ScrambleInvolution | source/net/rfSecurity.cpp:41-48 | the mix is its own inverse: mixing twice gives back the challenge |
| Handshake.CopyInto | source/net/rfSecurity.cpp:61 | `memcpy` writes the source bytes at the offset and leaves every other byte of the buffer unchanged |
| Handshake.ScrambleBlock | source/net/rfSecurity.cpp:36-51 | one loop pass reverses the eight bytes at the block offset in place and touches nothing else |
| Handshake.ScrambleIndexInBlock | source/net/rfSecurity.cpp:34-52 | inside a block starting at a multiple of 8, offset k maps to 7 - k |
| Handshake.Scramble | source/net/rfSecurity.cpp:29-53 | the 32 challenge bytes are replaced in place by their mix (each 8-byte block reversed); bytes outside the challenge are unchanged |
| Handshake.HandshakeHandler.constructor | include/net/rfSecurity.hpp:50-52 | the handler owns three distinct buffers of 64, 64 and 32 bytes |
| Handshake.HandshakeHandler.PrepareHandshakeForClient | source/net/rfSecurity.cpp:55-70 | the expected challenge becomes the random draw, the outgoing packet carries the server key followed by the mixed challenge |
| Handshake.HandshakeHandler.IsClientHandshakeValid | source/net/rfSecurity.cpp:72-89 | true iff the received challenge equals the expected one byte for byte; the client key is written only on success and left untouched otherwise |
| Handshake.HandshakeHandler.ResolveServerHandshake | source/net/rfSecurity.cpp:91-106 | the returned server key is the received key, the reply carries the client key followed by the unmixed received challenge |
| Handshake.HonestExchange | source/net/rfSecurity.cpp:55-106 | prepare, resolve by an honest client and validate: the server accepts, and each side ends up with the other's public key |
| Handshake.SodiumLatch.constructor | source/net/rfSecurity.cpp:10 | the latch starts unset |
| Handshake.SodiumLatch.Init | source/net/rfSecurity.cpp:12-25 | once set the latch stays set and the call succeeds without initialising again; otherwise it succeeds and sets iff `sodium_init` does not fail, and a failure (the throw) leaves it unset |
| Encryption.SealPacketFramed | include/net/rfSecurity.hpp:130-149 | `CryptoHandler::Encrypt` keeps `size` equal to the body length and the id unchanged; a successful non-empty encryption makes the body exactly the tag length longer and stores the fresh nonce; a failed one leaves the body as it was (the nonce is already overwritten) |
| Encryption.SealOpenRoundTrip | include/net/rfSecurity.hpp:130-177 | when the cipher opens what it sealed, `Decrypt` after a successful `Encrypt` with the same key restores the body and size and leaves the nonce zero; an empty packet passes through both unchanged |
| Encryption.SealPacket | include/net/rfSecurity.hpp:130-149 | `CryptoHandler::Encrypt` on header and body: an empty packet passes through unchanged and succeeds; otherwise the id is kept and the new nonce stored, success is exactly the cipher's success, a success makes the body the ciphertext and the size its length, and a failure keeps body and size |
| Encryption.OpenPacket | include/net/rfSecurity.hpp:157-177 | `CryptoHandler::Decrypt` on header and body: an empty packet passes through unchanged and succeeds; otherwise success is exactly the cipher's success, a failure leaves the packet untouched, and a success makes the body the plaintext, the size its length and the nonce zero, keeping the id |
| Encryption.CryptoHandler.constructor | include/net/rfSecurity.hpp:106 | the default handler's two keys are all zero |
| Encryption.CryptoHandler.FromSessionKeys | include/net/rfSecurity.hpp:114-121 | a handler built from a key exchange holds the receive key for decryption and the transmit key for encryption |
| Encryption.CryptoHandler.Encrypt | include/net/rfSecurity.hpp:129-149 | the packet and return value afterwards are those of `SealPacket`: an empty packet returns true unchanged; otherwise the nonce is replaced, then a failed seal returns false, a successful one replaces the body by the ciphertext and re-syncs `size` |
| Encryption.CryptoHandler.Decrypt | include/net/rfSecurity.hpp:157-177 | the packet and return value afterwards are those of `OpenPacket`: an empty packet returns true unchanged; a failed open returns false with the packet unchanged; a successful one replaces the body by the plaintext and zeroes every nonce byte |
| Encryption.NewCryptoHandler | include/net/rfSecurity.hpp:114-121 | the derivation is chosen by role; construction fails (the throw) iff the derivation rejects the peer key, and otherwise the handler holds the derived keys |
| Encryption.Load8Zero | include/net/rfSecurity.hpp:210-211 | a word loaded from eight bytes is zero iff all eight bytes are zero |
| Encryption.LoadLEZero | include/net/rfSecurity.hpp:210-211 | the same for a block given as a sequence |
| Encryption.NonceWordsZero | include/net/rfSecurity.hpp:208-212 | the 24-byte nonce is all zero iff each of its three 8-byte words is zero |
| Encryption.WordsOrZero | include/net/rfSecurity.hpp:208-212 | the OR of the nonce's three little-endian words is zero iff every one of its 24 bytes is zero |
| Encryption.IsEncrypted | include/net/rfSecurity.hpp:207-212 | the word test reads the nonce as a whole: a packet counts as encrypted iff some byte of its 24-byte nonce is non-zero |
| Encryption.SymSealPacket | include/net/rfSecurity.hpp:220-243 | `EncryptionHandler::Encrypt`: a packet whose nonce has a non-zero byte (already encrypted) is left exactly as it was and succeeds; a packet with a zero nonce is encrypted as by `SealPacket` |
| Encryption.SymOpenPacket | include/net/rfSecurity.hpp:251-274 | `EncryptionHandler::Decrypt`: a packet with an all-zero nonce (not encrypted) is left exactly as it was and succeeds; any other is decrypted as by `OpenPacket` |
| Encryption.SymRoundTrip | include/net/rfSecurity.hpp:220-274 | a plain packet encrypted under a non-zero nonce and decrypted with the same password key comes back exactly as it was (header and body) |
| Encryption.SymSealIdempotent | include/net/rfSecurity.hpp:220-243 | after a successful encryption the packet counts as encrypted, so encrypting again returns true and changes nothing |
| Encryption.SymOpenIdempotent | include/net/rfSecurity.hpp:251-274 | after a successful decryption the packet no longer counts as encrypted, so decrypting again returns true and changes nothing |
| Encryption.EncryptionHandler.FromKey | include/net/rfSecurity.hpp:186 | the handler holds the given key |
| Encryption.EncryptionHandler.IsPacketEncrypted | include/net/rfSecurity.hpp:207-212 | true iff some nonce byte is non-zero |
| Encryption.EncryptionHandler.Encrypt | include/net/rfSecurity.hpp:220-243 | as `CryptoHandler::Encrypt`, except that an already-encrypted packet returns true and is left unchanged |
| Encryption.EncryptionHandler.Decrypt | include/net/rfSecurity.hpp:251-274 | as `CryptoHandler::Decrypt`, except that a packet that is not encrypted returns true and is left unchanged |
| Encryption.NewEncryptionHandler | include/net/rfSecurity.hpp:193-199 | construction fails (the throw) iff hashing the password fails; otherwise the key is the SHA-256 digest of the password |
| Sprite.Animation.constructor | include/gfx2d/rfSprite.hpp:37-38 | an animation stores speed, count, start, end and loop exactly as given |
| Sprite.Instance.constructor | include/gfx2d/rfSprite.hpp:58-59 | an instance stores frame rectangle, animation, time and current frame exactly as given |
| Sprite.FrameRectInjective | source/gfx2d/rfSprite.cpp:131-140 | with frames of positive size, two cells with the same rectangle have the same index `start + frame`: column `index mod cols`, row `index div cols` |
| Sprite.StepFrame | source/gfx2d/rfSprite.cpp:305-320 | one `Update`: from a frame in `[0, count)` the frame stays in range and either stays or moves one position in the direction of play, to the next frame (the first after the last) for positive `dt` and to the previous one (the last before the first) otherwise, a move restarting the time; without a move the time grows by `dt` or, at the end of a finished non-looping animation, nothing changes; an animation whose 16-bit count wrapped to 0 is stepped too, as long as the step does not move to another frame (the only place that divides by `count`) |
| Sprite.EmptyAnimationHolds | source/gfx2d/rfSprite.cpp:305-320 | a non-looping animation of 0 frames played forward, or held at frame 0, never reaches the division by `count`: its frame stays and its time grows by `dt` until it reaches `speed` |
| Sprite.StepFrameNoWrap | source/gfx2d/rfSprite.cpp:307-320 | a non-looping animation never wraps: forward the frame never decreases, backward it never increases |
| Sprite.ForwardPlayStaysAhead | source/gfx2d/rfSprite.cpp:307-320 | played forward over any number of updates, a non-looping animation stays between its starting frame and its last frame |
| Sprite.FinishedIsStable | source/gfx2d/rfSprite.cpp:279-320 | once `IsAnimFinished` holds (last frame, time reached `speed`), further forward updates of a non-looping animation change nothing |
| Sprite.WholeSheetCrop | source/gfx2d/rfSprite.cpp:8-26 | the intended whole-sheet rectangle never crops, while the rectangle as written crops exactly when the previous texture's size differs from the new image's |
| Sprite.WholeSheetCounterexample | source/gfx2d/rfSprite.cpp:8-11 | a sprite that held a 64×64 texture and loads a 128×32 sheet as a whole gets a 64×64 crop of it |
| Sprite.Sprite.constructor | include/gfx2d/rfSprite.hpp:69-83 | a new sprite has no animation, no instance, no texture and does not own one |
| Sprite.Sprite.Releases | include/gfx2d/rfSprite.hpp:176-179 | the destructor deletes the texture exactly when the ownership flag is set and the pointer is non-null |
| Sprite.Sprite.NewAnimation | source/gfx2d/rfSprite.cpp:70-75 | a fresh animation replaces any under the key, with `count = end - start + 1` in 16-bit arithmetic and the other fields as given; nothing else changes |
| Sprite.Sprite.GetAnimation | source/gfx2d/rfSprite.cpp:97-112 | the lookup returns the stored animation, inserting a null entry when the key is absent (release-build `operator[]`) |
| Sprite.Sprite.NewInstance | source/gfx2d/rfSprite.cpp:170-175 | a fresh instance replaces any under the key, on the given animation at frame 0 and time 0, its rectangle at `texSource`'s corner with the frame size |
| Sprite.Sprite.NewInstanceOf | include/gfx2d/rfSprite.hpp:314-317 | the same, on the animation looked up by key |
| Sprite.Sprite.LoadTexture | source/gfx2d/rfSprite.cpp:55-65 | `Loaded`: the texture, source rectangle and 8-bit grid are adopted, the frame size is the rectangle divided by the grid, `frameNum = cols*rows` (16-bit), a fresh looping `"main"` animation over frames `0..frameNum-1` and a fresh `"main"` instance on it at frame 0 replace any of that key, every other entry is kept, and the ownership flag is unchanged |
| Sprite.Sprite.LoadFromFile | source/gfx2d/rfSprite.cpp:13-32 | the sprite owns the new texture; unless the rectangle is the whole image, the image is cropped to it and the rectangle moved to the origin; then `Loaded` holds for the new texture and rectangle, as after `LoadTexture` |
| Sprite.Sprite.LoadFromImage | source/gfx2d/rfSprite.cpp:34-53 | as `LoadFromFile` (the same crop, then `Loaded`), except that the ownership flag is left as it was |
| Sprite.Sprite.LoadWholeAsWritten | source/gfx2d/rfSprite.cpp:8-11 | the whole-sheet load as written crops the new image to the size of the texture held before the call |
| Sprite.Sprite.LoadWhole | source/gfx2d/rfSprite.cpp:8-11 | the whole-sheet load as intended: the new texture is the whole image, uncropped, owned by the sprite |
| Sprite.Sprite.SetAnimation | source/gfx2d/rfSprite.cpp:77-95 | the instance moves to the animation (inserted as null when absent) and restarts at frame 0, time 0; its rectangle is not updated; the instance map and the sprite's settings are unchanged |
| Sprite.Sprite.SetAnimationSpeed | source/gfx2d/rfSprite.cpp:147-150 | only the animation's speed changes: loop flag, count, first and last frame are kept |
| Sprite.Sprite.SetAnimationLoop | source/gfx2d/rfSprite.cpp:152-155 | only the animation's loop flag changes: speed, count, first and last frame are kept |
| Sprite.Sprite.FrameRecIdentifiesFrame | source/gfx2d/rfSprite.cpp:131-140 | with frames of positive size, `GetAnimationFrameRec` gives equal rectangles only for frame indices equal modulo the animation's count |
| Sprite.Sprite.GetAnimationFrameRec | source/gfx2d/rfSprite.cpp:131-140 | the rectangle has the frame size; with `FrameRecIdentifiesFrame`, two indices give the same rectangle exactly when equal modulo the animation's count |
| Sprite.Sprite.IsCurrentFrameAfter | source/gfx2d/rfSprite.cpp:274-277 | an instance past some position is not at the first frame |
| Sprite.Sprite.IsCurrentFrameBefore | source/gfx2d/rfSprite.cpp:269-272 | never holds together with `IsCurrentFrameAfter` for the same position |
| Sprite.Sprite.IsCurrentFrameEqual | source/gfx2d/rfSprite.cpp:264-267 | the three comparisons split the positions: equal holds exactly when neither before nor after does |
| Sprite.Sprite.IsAnimFinished | source/gfx2d/rfSprite.cpp:279-286 | finished only on the animation's last frame with its time reached `speed`; with `FinishedIsStable`, a finished non-looping animation then stays as it is |
| Sprite.Sprite.RemoveInstance | source/gfx2d/rfSprite.cpp:197-200 | exactly that key is erased (release build: the key must exist); animations and settings are unchanged |
| Sprite.Sprite.ClearInstances | source/gfx2d/rfSprite.cpp:203-218 | every instance whose key is not `"main"` is erased and `"main"` is kept untouched; animations and settings are unchanged |
| Sprite.Sprite.GotoFrame | source/gfx2d/rfSprite.cpp:254-262 | the current frame becomes `position mod count`, the time 0, and the rectangle that frame's cell |
| Sprite.Sprite.Update | source/gfx2d/rfSprite.cpp:301-324 | frame and time afterwards are one step of the frame state machine (forward for positive `dt`, wrap when looping, clamp and accumulate time otherwise), and the rectangle moves to the new frame's cell; a 0-frame animation is accepted whenever the step does not move to another frame, where the source would divide by 0 |
| Sprite.Sprite.Moved | include/gfx2d/rfSprite.hpp:137-148 | the move constructor takes maps, texture, ownership and grid; the source is left with empty maps, a null texture and no ownership, so the texture is released once |
| Sprite.Sprite.MoveAssign | include/gfx2d/rfSprite.hpp:155-171 | self-assignment changes nothing; otherwise everything is taken as by the move constructor |
| Sprite.Sprite.GetGrid | include/gfx2d/rfSprite.hpp:519-522 | the grid comes back as (rows, cols), in that order |
| Particles.Advanced | include/gfx2d/rfParticles.hpp:28-33 | one `Particle::Update` shortens the remaining time by `dt`, keeps the horizontal velocity, and leaves colour, radius and total lifetime as they were |
| Particles.SurvivesStep | include/gfx2d/rfParticles.hpp:28-33 | the value `Particle::Update` returns: the particle is still alive after the step exactly when `dt` is below its remaining time |
| Particles.AdvancedNClosedForm | include/gfx2d/rfParticles.hpp:28-33 | n updates with the same gravity and step lower the remaining time by n·dt, add n·gravity·dt to the vertical velocity, move x by n·vx·dt, and leave colour, radius and total lifetime alone |
| Particles.AliveAfterSteps | include/gfx2d/rfParticles.hpp:32 | the n-th update of a particle returns true iff n·dt is below its initial remaining time |
| Particles.SurvivorsMembers | source/gfx2d/rfParticles.cpp:102-111 | a particle is live after `Update` iff it is the one-step advance of a live particle whose `Particle::Update` returned true |
| Particles.SurvivorsBounds | source/gfx2d/rfParticles.cpp:102-111 | `Update` never adds particles and leaves only particles with positive remaining time |
| Particles.Spawned | source/gfx2d/rfParticles.cpp:91-98 | an emitted particle has `time = lifeTime =` the emitter's lifetime, the emitter's position and colour, and the drawn velocity and radius |
| Particles.Emitted | source/gfx2d/rfParticles.cpp:84-99 | emitting `num` is meant to append `min(num, free capacity)` particles: at most `num`, never past capacity, and exactly `num` unless the pool fills |
| Particles.EmittedAgreesBelow256 | source/gfx2d/rfParticles.cpp:86 | for `num <= 255` the 8-bit loop counter appends exactly the intended number |
| Particles.EmitWrapCounterexample | source/gfx2d/rfParticles.cpp:86 | `Emit(300)` on an empty pool of capacity 1000 appends 1000 particles where 300 were asked for |
| Particles.ParticleSystem.Default | include/gfx2d/rfParticles.hpp:68 | the default system has a null array, count 0 and capacity 0 |
| Particles.ParticleSystem.constructor | source/gfx2d/rfParticles.cpp:9-28 | a new system is empty with capacity `maxParticles`, a fresh array of that size and the documented default emitter settings |
| Particles.ParticleSystem.Moved | source/gfx2d/rfParticles.cpp:37-55 | the move constructor takes the settings, the array and both counts, and leaves the source with a null array, capacity 0 and count 0 |
| Particles.ParticleSystem.MoveAssign | source/gfx2d/rfParticles.cpp:57-82 | a self-move changes nothing; otherwise as the move constructor |
| Particles.ParticleSystem.SetPosition | include/gfx2d/rfParticles.hpp:108-111 | only the emitter position changes |
| Particles.ParticleSystem.SetLifeTime | include/gfx2d/rfParticles.hpp:117-120 | only the emitted lifetime changes |
| Particles.ParticleSystem.SetGravity | include/gfx2d/rfParticles.hpp:126-129 | only the gravity changes |
| Particles.ParticleSystem.SetColor | include/gfx2d/rfParticles.hpp:135-138 | only the emitted colour changes |
| Particles.ParticleSystem.SetRadius | include/gfx2d/rfParticles.hpp:145-149 | only the radius bounds change; the array and counts stay |
| Particles.ParticleSystem.SetVelocity | include/gfx2d/rfParticles.hpp:156-161 | only the velocity bounds change; the array and counts stay |
| Particles.ParticleSystem.Clear | include/gfx2d/rfParticles.hpp:166-169 | the live count becomes 0; array, capacity and settings are untouched |
| Particles.ParticleSystem.Emit | source/gfx2d/rfParticles.cpp:84-99 | as written: the count grows by the number the 8-bit counter lets through, earlier particles are unchanged, the k-th new particle is spawned from the k-th draw, and every new particle's velocity and radius lie within the ranges set by `SetVelocity` and `SetRadius` |
| Particles.ParticleSystem.EmitBounded | source/gfx2d/rfParticles.cpp:84-99 | as intended: the count grows by exactly `min(num, free capacity)`, earlier particles unchanged, new ones spawned in order, each with velocity and radius within the stored ranges |
| Particles.ParticleSystem.Update | source/gfx2d/rfParticles.cpp:102-111 | the live particles afterwards are, as a multiset, exactly the one-step advances of those that survived, and the count is their number; capacity and settings stay |
| Particles.UpdateLive | source/gfx2d/rfParticles.cpp:104-110 | the backward swap-remove loop leaves in the live prefix, as a multiset, exactly the survivors of one step of each particle visited once |
| Particles.SurvivorsCons | source/gfx2d/rfParticles.cpp:104-110 | the survivors of a suffix are the first particle's contribution followed by the survivors of the rest |
| Particles.AliveStep | source/gfx2d/rfParticles.cpp:106 | a surviving particle written back into its slot joins the block of visited particles |
| Particles.DeadStep | source/gfx2d/rfParticles.cpp:108 | a dead particle overwritten by the last live one leaves the visited block equal, as a multiset, to what was there minus the dead slot |
| MusicManager.StartCalls | include/core/rfMusicManager.hpp:333-338 | starting a stream applies volume, pitch and pan and then plays it: four calls ending in the play |
| MusicManager.StopCurrent | include/core/rfMusicManager.hpp:420-421 | the current stream is stopped when there is one, and nothing is called otherwise |
| MusicManager.KnownTracksMembers | include/core/rfMusicManager.hpp:123-135 | a name is in a new playlist iff it was listed and is loaded, so every playlist entry names a loaded stream |
| MusicManager.KnownTracksAllLoaded | include/core/rfMusicManager.hpp:123-135 | the playlist equals the list iff every listed name is loaded (nothing is skipped) |
| MusicManager.NextIndex | include/core/rfMusicManager.hpp:424 | the next index is always within `[0, size)` |
| MusicManager.PreviousIndex | include/core/rfMusicManager.hpp:449 | the previous index, computed in `size_t`, is always within `[0, size)` |
| MusicManager.NextPreviousSteps | include/core/rfMusicManager.hpp:416-457 | inside the playlist next moves one track on and wraps from the last to the first; previous moves one back and wraps from the first to the last |
| MusicManager.NextPreviousInverse | include/core/rfMusicManager.hpp:416-457 | inside the playlist previous undoes next and next undoes previous |
| MusicManager.NextIterCycles | include/core/rfMusicManager.hpp:416-432 | k calls of next (k up to the size) move k tracks on cyclically, and `size` calls come back to the same track |
| MusicManager.StoppedNeighbours | include/core/rfMusicManager.hpp:385-449 | after `Stop` (index -1) next gives the first track, but previous gives the second-to-last one, not the last |
| MusicManager.MusicManager.constructor | include/core/rfMusicManager.hpp:42-52 | a new manager has no stream, no playlist, index -1, volume 1, pitch 1, pan 0.5, and looping, randomize and playing off |
| MusicManager.MusicManager.Load | include/core/rfMusicManager.hpp:60-101 | a stream is stored under a free name; an existing name is never replaced (emplace) |
| MusicManager.MusicManager.Get | include/core/rfMusicManager.hpp:184-187 | the lookup finds the stream iff the name is loaded |
| MusicManager.MusicManager.NewPlaylist | include/core/rfMusicManager.hpp:111-138 | succeeds iff the list is non-empty and the name is free; a failure changes nothing; a success stores the loaded tracks of the list in order, skipping unknown names, even when none is loaded |
| MusicManager.MusicManager.SetPlaylist | include/core/rfMusicManager.hpp:147-164 | `""` unsets the playlist and sets the index to -1; a known name becomes current (the index stays); an unknown name fails with no change |
| MusicManager.MusicManager.RandomizePlaylist | include/core/rfMusicManager.hpp:171-174 | only the randomize flag changes |
| MusicManager.MusicManager.SetLooping | include/core/rfMusicManager.hpp:272-275 | only the looping flag changes |
| MusicManager.MusicManager.SetVolume | include/core/rfMusicManager.hpp:224-233 | the volume is stored and applied to the current stream when there is one |
| MusicManager.MusicManager.SetPitch | include/core/rfMusicManager.hpp:240-249 | the pitch is stored and applied to the current stream when there is one |
| MusicManager.MusicManager.SetPan | include/core/rfMusicManager.hpp:256-265 | the pan is stored and applied to the current stream when there is one |
| MusicManager.MusicManager.CurrentMusic | include/core/rfMusicManager.hpp:501-504 | the current stream's name while playing, `""` otherwise |
| MusicManager.MusicManager.IsPlaying | include/core/rfMusicManager.hpp:292-295 | a manager that is playing has a current stream |
| MusicManager.MusicManager.CurrentPlaylistAsWritten | include/core/rfMusicManager.hpp:511-514 | as written the query fails (null dereference) exactly when a stream plays with no playlist set, and answers `""` when nothing plays |
| MusicManager.MusicManager.CurrentPlaylistName | include/core/rfMusicManager.hpp:505-514 | as documented: the playlist's name while a stream plays from one, `""` otherwise; it agrees with the code whenever the code does not fail |
| MusicManager.MusicManager.Play | include/core/rfMusicManager.hpp:307-341 | with a name: fails with no change when unknown, else makes it current, unsets playlist and index and starts it; with `""`: fails with no change without a playlist, else takes index 0 (any valid index when randomizing) and starts that track; a success always leaves the manager playing |
| MusicManager.MusicManager.Pause | include/core/rfMusicManager.hpp:348-357 | fails with no change when there is no current stream; otherwise pauses it and clears the playing flag |
| MusicManager.MusicManager.Resume | include/core/rfMusicManager.hpp:364-373 | fails with no change when there is no current stream; otherwise resumes it and the manager is playing |
| MusicManager.MusicManager.Stop | include/core/rfMusicManager.hpp:380-390 | fails with no change when there is no current stream; otherwise stops it, sets the index to -1 and clears the playing flag |
| MusicManager.MusicManager.Rewind | include/core/rfMusicManager.hpp:397-407 | fails with no change when there is no current stream; otherwise stops and restarts it, nothing else changing |
| MusicManager.MusicManager.NextMusic | include/core/rfMusicManager.hpp:416-432 | as written: fails with no change without a playlist; otherwise stops the current stream, moves the index on cyclically and makes that track current without starting it |
| MusicManager.MusicManager.PreviousMusic | include/core/rfMusicManager.hpp:441-457 | as `NextMusic`, one track back |
| MusicManager.MusicManager.RandomMusic | include/core/rfMusicManager.hpp:466-494 | fails with no change without a playlist of at least two tracks; otherwise stops the current stream and makes current a valid track whose index differs from the old one, without starting it |
| MusicManager.MusicManager.NextMusicPlaying | include/core/rfMusicManager.hpp:408-432 | as documented: as `NextMusic`, and the new track is started, so the manager is playing |
| MusicManager.MusicManager.RandomMusicPlaying | include/core/rfMusicManager.hpp:458-494 | as documented: as `RandomMusic`, and the chosen track is started |
| MusicManager.MusicManager.Update | include/core/rfMusicManager.hpp:523-548 | with no current stream nothing happens; an unfinished stream is only updated; a finished one is rewound when looping; in a playlist it is stopped and the next track (`NextIndex`) made current, or with randomize a track of a different valid index, neither started, volume, pitch, pan and the playing flag kept; randomize with fewer than two tracks only updates the stream; without a playlist it is stopped |
| MusicManager.MusicManager.UpdatePlaying | include/core/rfMusicManager.hpp:515-548 | as documented: as `Update`, except that a playlist track change (next, or random of a different index) ends by starting the new track with the stored volume, pitch and pan, so the manager is playing |
| MusicManager.PlayByNameThenCurrentPlaylist | include/core/rfMusicManager.hpp:511-514 | after `Play(name)` of a loaded stream a stream plays with no playlist: `CurrentPlaylist()` as written dereferences null, while the corrected query answers `""` |
| MusicManager.PlaylistAdvanceIsSilent | include/core/rfMusicManager.hpp:523-548 | when a playlist track finishes (no looping, no randomize), `Update` makes the next playlist track current but issues no play call, so the playlist goes silent |
| AssetManager.Make | include/core/rfAssetManager.hpp:32-48 | an asset built from a value records that value's type and points to the value |
| AssetManager.AssetGet | include/core/rfAssetManager.hpp:56-72 | a typed read throws `bad_cast` iff the requested type differs from the stored one, and otherwise returns the stored pointer |
| AssetManager.Inserted | include/core/rfAssetManager.hpp:101-118 | `emplace` leaves a taken name (and the whole store) unchanged, and otherwise adds exactly that name with the new asset, keeping every other entry |
| AssetManager.Assigned | include/core/rfAssetManager.hpp:128-145 | `insert_or_assign` always maps the name to the new asset, adds no other name and keeps every other entry |
| AssetManager.Erased | include/core/rfAssetManager.hpp:151-155 | erasing removes exactly that name and keeps every other entry |
| AssetManager.GetAsWritten | include/core/rfAssetManager.hpp:193-199 | as written: null for an absent name, otherwise the stored asset's typed read (which throws on a type mismatch) |
| AssetManager.GetOrNull | include/core/rfAssetManager.hpp:186-192 | as documented: a value is returned only for a present name whose stored type matches, and it is the stored pointer |
| AssetManager.GetAgreesUnlessMismatch | include/core/rfAssetManager.hpp:186-199 | the code throws exactly when the name is present with another type, and otherwise returns what the documented reading returns |
| AssetManager.GetMismatchCounterexample | include/core/rfAssetManager.hpp:193-199 | an `int` asset read as `float` throws instead of giving the documented null |
| AssetManager.AddThenGet | include/core/rfAssetManager.hpp:101-118 | reading back, with its own type, what `Add` stored under a free name gives the stored value |
| AssetManager.InsertIdempotentAssignLastWins | include/core/rfAssetManager.hpp:101-145 | a second `Add` under the same name changes nothing, while of two `AddOrReplace` calls the last wins |
| AssetManager.SizeChanges | include/core/rfAssetManager.hpp:101-173 | `Add` and `AddOrReplace` grow the size by one exactly when the name was free; `Remove` shrinks it by one exactly when the name was present |
| AssetManager.AddThenRemove | include/core/rfAssetManager.hpp:101-155 | removing what was just added under a free name restores the store |
| AssetManager.AssetManager.constructor | include/core/rfAssetManager.hpp:90 | a new manager is empty |
| AssetManager.AssetManager.Add | include/core/rfAssetManager.hpp:101-118 | the store becomes the emplace of the asset; the result reports whether it was inserted (iff the name was free) and the asset now stored under the name |
| AssetManager.AssetManager.AddOrReplace | include/core/rfAssetManager.hpp:128-145 | as documented (the source does not compile, see "Left out"): the name maps to the new asset afterwards; the result reports whether the name was new |
| AssetManager.AssetManager.Remove | include/core/rfAssetManager.hpp:151-155 | only that name goes; removing an absent name changes nothing |
| AssetManager.AssetManager.Reserve | include/core/rfAssetManager.hpp:161-164 | reserving changes no entry |
| AssetManager.AssetManager.GetSize | include/core/rfAssetManager.hpp:170-173 | the size is the number of distinct names stored |
| AssetManager.AssetManager.GetType | include/core/rfAssetManager.hpp:180-185 | null iff the name is absent, otherwise the stored type |
| AssetManager.AssetManager.GetAsset | include/core/rfAssetManager.hpp:220-237 | null iff the name is absent, otherwise the stored asset |
| AssetManager.AssetManager.Get | include/core/rfAssetManager.hpp:193-213 | the typed lookup as written; when it throws, the name is present with a different stored type |
| AssetManager.AssetManager.Index | include/core/rfAssetManager.hpp:245-250 | `operator[]` returns the stored asset; on an absent name it first inserts an empty `void` asset, growing the size by one; on a present name nothing changes |
| SaveManager.EncodeInt | include/core/rfSaveManager.hpp:150 | the version is written as exactly four bytes |
| SaveManager.SplitByte | include/core/rfSaveManager.hpp:103-150 | splitting off the low byte of a little-endian value gives that byte and the remaining bytes |
| SaveManager.IntRoundTrip | include/core/rfSaveManager.hpp:103-150 | reading back the four bytes written for a version gives that version, and every four bytes are the encoding of the value they decode to |
| SaveManager.ParseSave | include/core/rfSaveManager.hpp:98-134 | reading a save file finds a version mismatch, a payload no longer than the object (a short read), or exactly the object's bytes |
| SaveManager.SaveFileRoundTrip | include/core/rfSaveManager.hpp:94-160 | a file holding a version followed by an object of the expected size reads back as that object |
| SaveManager.OtherVersionDetected | include/core/rfSaveManager.hpp:102-117 | a file written for another version is always reported as a mismatch, carrying the version it holds and the bytes after it |
| SaveManager.FileSystem.constructor | include/core/rfSaveManager.hpp:98-146 | the file system holds the given files and read-only paths |
| SaveManager.SaveManager.constructor | include/core/rfSaveManager.hpp:41-50 | both `origin` and `data` are fresh, separate buffers holding a copy of the given value; version and directory are stored, no callback is set |
| SaveManager.SaveManager.SetDirectory | include/core/rfSaveManager.hpp:66-69 | only the directory changes |
| SaveManager.SaveManager.SetOnIncompatibleVersion | include/core/rfSaveManager.hpp:75-78 | only the callback changes |
| SaveManager.SaveManager.Get | include/core/rfSaveManager.hpp:86 | the current data, one object of the saved type: as long as the defaults' size |
| SaveManager.SaveManager.MismatchCode | include/core/rfSaveManager.hpp:106-117 | a version mismatch gives `INCOMPATIBLE_VERSION` (4), or `SUCCESS` (0) exactly when a callback is set and accepts the file |
| SaveManager.SaveManager.Load | include/core/rfSaveManager.hpp:94-134 | as written: `FILE_NOT_FOUND` (3) for a missing file and the mismatch code for another version, both with data untouched; a short payload is read as far as it goes, then `data` is made to point at `origin` and `LOAD_FAILURE` (1) is returned; a full payload is read into `data` and gives `SUCCESS` |
| SaveManager.SaveManager.LoadRestoring | include/core/rfSaveManager.hpp:94-134 | as intended: the same codes, but a short payload copies the defaults back into `data`, which stays a separate buffer, and the defaults are never written |
| SaveManager.SaveManager.Write | include/core/rfSaveManager.hpp:142-160 | an unopenable path gives `FILE_NOT_FOUND` with no file changed; otherwise the file becomes the four version bytes followed by the data and `SUCCESS` is returned, or, if the device fails, some prefix of those bytes and `WRITE_FAILURE` (2) |
| SaveManager.WriteThenLoad | include/core/rfSaveManager.hpp:94-160 | writing the data and loading it back under the same name returns `SUCCESS` both times and leaves the data as it was |
| SaveManager.ShortLoadsCorruptDefaults | include/core/rfSaveManager.hpp:119-128 | two loads of a file one byte short: after the first, `data` is the defaults buffer, so the second writes the partial payload into the defaults themselves |
| SaveManager.ShortLoadsRestoreDefaults | include/core/rfSaveManager.hpp:119-128 | the same two loads with the defaults restored by copy leave the data equal to the defaults and the defaults intact |
| App.SwitchKeepsBalance | source/core/rfApp.cpp:138-143 | exiting the current state and entering another keeps the entered states equal to {current, next} and every callback bracketed |
| App.EnterKeepsBalance | source/core/rfApp.cpp:157-159 | entering a state into an empty current or next slot keeps the callback discipline |
| App.ExitKeepsBalance | source/core/rfApp.cpp:116-121 | exiting the current state while the next one moves into its slot keeps the callback discipline |
| App.CloseKeepsBalance | source/core/rfApp.cpp:187-188 | exiting the current and then the pending state leaves no state entered, every exit having matched an enter |
| App.UpdateKeepsBalance | source/core/rfApp.cpp:23 | updating the current or the pending state keeps the callback discipline (an update only ever reaches an entered state) |
| App.AfterUpdate | source/core/rfApp.cpp:23 | a state's `Update` only appends its callback to the log; nothing else in the application changes |
| App.AfterSwitch | source/core/rfApp.cpp:136-144 | `SetState` makes the named state current and leaves the pending state, progress, running flag and code alone |
| App.AfterTransition | source/core/rfApp.cpp:146-160 | `Transition` is ignored while a next state is pending; otherwise the named state becomes next and is entered, and the rate is the inverse of the duration; the current state, progress, running flag and code are kept |
| App.AfterRequest | include/core/rfApp.hpp:217-239 | a state's request keeps a current state, the states and objects, a pending state, and progress; only `Finish` stops the loop and sets the code; the log only grows |
| App.AfterPromotion | source/core/rfApp.cpp:116-121 | at the end of a transition the next state becomes current, nothing is pending, progress is 0 and the old current state is exited |
| App.AfterFrame | source/core/rfApp.cpp:21-122 | one frame keeps a current state and the states and objects |
| App.App.constructor | source/core/rfApp.cpp:126-134 | a new application has no states, no current or next state, progress 0, rate 1, not running, return code 0, no shaders and no callbacks |
| App.App.AddState | include/core/rfApp.hpp:206-211 | the name is (re)bound to a freshly created state object distinct from every object already held; nothing else changes |
| App.App.SetMainShader | include/core/rfApp.hpp:190-193 | only the main shader changes |
| App.App.Finish | include/core/rfApp.hpp:239 | only `running` (now false) and the return code change |
| App.App.OnTransition | include/core/rfApp.hpp:245-248 | true exactly when a next state is pending |
| App.App.SetState | source/core/rfApp.cpp:136-144 | naming the current state changes nothing; any other name exits the current state, enters the new one and makes it current, leaving a pending transition alone; the callback discipline is kept |
| App.App.Transition | source/core/rfApp.cpp:146-160 | ignored while a next state is pending; otherwise the rate becomes `1/duration`, a given shader is adopted, the state becomes next and is entered at once, the current state untouched; the callback discipline is kept |
| App.App.GetRenderer | source/core/rfApp.cpp:193-197 | the main target exactly for the current state's object; the pending state's (distinct) object gets the transition target |
| App.App.Perform | include/core/rfApp.hpp:217-239 | the new state is `AfterRequest` of the old: `Finish` sets only `running` (false) and the code; an idle frame changes nothing; a switch or transition keeps running, code, progress and any pending state, and only appends callbacks; the discipline is kept |
| App.App.UpdateAndDraw | source/core/rfApp.cpp:21-41 | the new state is `AfterFrame` of the old: the current state is updated with the frame time, then its request applied; the states survive and the discipline is kept |
| App.App.UpdateAndDrawTransition | source/core/rfApp.cpp:43-122 | the new state is `AfterFrame` of the old: progress grows by rate × dt; once it reaches 1 it is reset to 0, the old state exited and the next made current, otherwise the next stays pending with the new progress; the discipline is kept |
| App.App.UpdateBoth | source/core/rfApp.cpp:48-50 | the new state is the old one with the current state updated, its request applied, and then the pending state updated; the pending state and progress are untouched |
| App.App.RecordUpdate | source/core/rfApp.cpp:23 | the new state is `AfterUpdate` of the old: an update reaches an entered (current or pending) state and only appends its callback |
| App.App.AdvanceTransition | source/core/rfApp.cpp:45-50 | progress grows by rate × dt, then the current state is updated, its request applied, and the pending state updated; the pending state stays |
| App.App.EndTransition | source/core/rfApp.cpp:116-121 | the new state is `AfterPromotion` of the old: progress back to 0, the old current state exited, the next state current and nothing pending, all else unchanged |
| App.App.Tick | source/core/rfApp.cpp:182-183 | the new state is `AfterFrame` of the old: one loop iteration (plain or transition frame) appends at least one callback, stops the loop only on `Finish` with its code, keeps the states and the callback discipline |
| App.App.Run | source/core/rfApp.cpp:162-191 | the first state is entered, frames run until one finishes the app (its code is returned) or the frames run out (the code held before is returned), then the current and any pending state are exited; every callback goes to an entered state and nothing is left entered |
| App.App.Open | source/core/rfApp.cpp:164-167 | the first state becomes current, is entered and the app runs |
| App.App.Close | source/core/rfApp.cpp:187-188 | the current state is exited, then the pending one if any; nothing else changes |
| App.FirstDone | include/core/rfApp.hpp:359-363 | the index of the first frame whose latch read sees the loading work finished: every earlier frame's latch read still sees it running, and none when all do |
| App.Fade | include/core/rfApp.hpp:365-366 | the loading screen's opacity stays in [0, 1], never drops while the fade read sees the work running, never rises once it sees it finished, and drops to 0 from an opacity at most `4 dt` |
| App.Loading | include/core/rfApp.hpp:344-389 | as written: opacity and `PostTask` follow `AlphaAfter` and `FirstDone` over the frames run; the loop ends only fully transparent (or out of frames); `PostTask` runs at most once, on the first frame whose latch read sees the work finished; it ends without `PostTask` only when the last frame's latch read saw the work running and its fade read saw it finished |
| App.AlphaAfter | include/core/rfApp.hpp:346-366 | the opacity after the frames run stays in [0, 1] and, while every fade read sees the work running, at least its initial `EPSILON` |
| App.Latched | include/core/rfApp.hpp:359-366 | a loop that reads the flag once per frame sees, in both reads of each frame, that frame's latch value |
| App.LoadingRace | include/core/rfApp.hpp:359-366 | one 16 ms frame on which the work finishes between the latch read and the fade read: the screen becomes transparent and `PostTask` never runs |
| App.LoadingSingleRead | include/core/rfApp.hpp:344-389 | with one read per frame: `PostTask` runs exactly once, on the first frame that sees the work finished, and the screen never becomes transparent before it ran |
| Lights.NearestUpperSquare | source/gfx3d/rfLights.cpp:760-770 | for `1 <= x <= 2^31` the `uint32` round-up gives the least power of two not below `x` (one bit set, at least `x`, its half below `x`); for 0 and for anything above `2^31` the decrement/increment wraps and it yields 0 |
| Lights.NextPow2 | source/gfx3d/rfLights.cpp:760-770 | the same round-up on integers: a power of two, at least `n`, 1 for `n <= 1`, and its half below `n` otherwise (the least such power) |
| Lights.Light.constructor | source/gfx3d/rfLights.cpp:498-533 | a new light keeps its index and whether it has a shadow map, takes the caster, radius and colour, is enabled, and has the zero atlas rectangle |
| Lights.Light.SetShadowMapBounds | source/gfx3d/rfLights.cpp:535-549 | only the light's atlas bounds change, to the given rectangle |
| Lights.Light.SetPosition | source/gfx3d/rfLights.cpp:605-612 | afterwards `GetPosition` returns the new position; only the caster's position changes |
| Lights.Light.SetTarget | source/gfx3d/rfLights.cpp:614-620 | afterwards `GetTarget` returns the new target; only the caster's target changes |
| Lights.Light.SetFovY | source/gfx3d/rfLights.cpp:622-628 | afterwards `GetFovY` returns the new angle; only the caster's field of view changes |
| Lights.Light.SetRadius | source/gfx3d/rfLights.cpp:630-634 | afterwards `GetRadius` returns the new radius; nothing else changes |
| Lights.Light.SetColor | source/gfx3d/rfLights.cpp:636-641 | afterwards `GetColor` returns the new colour; nothing else changes |
| Lights.Light.SetActive | source/gfx3d/rfLights.cpp:643-648 | afterwards `IsActive` returns the new flag; nothing else changes |
| Lights.Light.SetCaster | source/gfx3d/rfLights.cpp:650-657 | the whole caster is replaced, so position, target and field of view read back from it; nothing else changes |
| Lights.Advance | source/gfx3d/rfLights.cpp:789-794 | the layout cursor moves right by one tile, and wraps to the left edge one tile lower once it reaches the atlas width |
| Lights.Tile | source/gfx3d/rfLights.cpp:784-788 | every light's atlas tile is a square of the common side |
| Lights.TimesIsProduct | source/gfx3d/rfLights.cpp:789 | `k` cursor steps of `side` add up to `k * side` |
| Lights.TimesLess | source/gfx3d/rfLights.cpp:789 | an earlier tile ends no later than a later one starts |
| Lights.CursorTopRow | source/gfx3d/rfLights.cpp:786-795 | when `count` tiles exactly span the width, the first `count` cursors never wrap: the `i`-th is at `(i * side, 0)` |
| Lights.SideFits | source/gfx3d/rfLights.cpp:783 | the side `width / p` is positive and `p` tiles of it span the width exactly |
| Lights.TileInRow | source/gfx3d/rfLights.cpp:783-795 | with `p` tiles to the row, tile `i < p` lies in the top row at `i * side` and inside the atlas |
| Lights.TileInTopRow | source/gfx3d/rfLights.cpp:783-795 | with side `width / NextPow2(n)`, each of the `n` tiles lies in the top row, inside the atlas |
| Lights.AtlasLayout | source/gfx3d/rfLights.cpp:783-795 | the layout `AddShadowLight` leaves for `n` casters: all tiles in the top row, inside the atlas, in index order and pairwise disjoint |
| Lights.ShadowCount | include/gfx3d/rfLights.hpp:234 | the number of shadow casting lights is at most the number of lights, and all of them when every light casts shadows |
| Lights.AmbientFromIntensity | source/gfx3d/rfLights.cpp:678-682 | red, green and blue are equal and alpha is 0; the channel is the intensity scaled by 255 truncated toward zero: within 1 below the scaled value when it is non-negative, 0 on (-1, 0) |
| Lights.Lights.constructor | source/gfx3d/rfLights.cpp:661-670 | keeps the ambient colour and limits; the atlas side is `maxLights * mapSize`, an atlas exists exactly when both are positive, no lights and no shadow casters yet |
| Lights.Lights.FromIntensity | source/gfx3d/rfLights.cpp:672-685 | the same, with the ambient colour built from the intensity |
| Lights.Lights.AddLight | source/gfx3d/rfLights.cpp:747-756 | with room: a fresh non-shadow light with the next index and the given settings is appended and returned; when full: null and nothing changes |
| Lights.Lights.AddShadowLight | source/gfx3d/rfLights.cpp:758-803 | without an atlas it is `AddLight`; when full, null and no change; on both those paths every existing light keeps its atlas rectangle; otherwise a fresh shadow light is appended, counted, and every light gets tile `i` of side `bufferSize / NextPow2(shadowNum)`; other lights' settings are untouched |
| Lights.Lights.LayOut | source/gfx3d/rfLights.cpp:784-795 | each light in order gets the tile under the cursor; no light's settings change |
| Lights.Lights.TileOf | source/gfx3d/rfLights.cpp:783-795 | after `AddShadowLight` the `i`-th caster's tile is `(i * side, 0, side, side)` and ends inside the atlas |

## Left out

- Network transport: the asio sockets, threads and I/O context, and `Connection`, `TSQueue` and `ServerInterface`, whose source is not part of this model.
- libsodium primitives: the secret box (`crypto_secretbox_easy` and `_open_easy`), the `crypto_kx` session-key derivations and SHA-256 of the password are parameters of the operations that use them (`SecretBox`, `KeyExchange`, a digest function). `randombytes_buf` becomes a nonce argument. Only the open-after-seal law is assumed of them, as a precondition (`Correct`).
- `source/core/rfSaveManager.cpp` is not part of this model. It redefines the header's inline members, and it reads and writes through the address of the data pointer. The header's behaviour is the one modelled.
- Float and GPU code: rendering, shaders and uniform uploads, render targets, the window, the camera maths, the 3D billboard sprite and every `Draw` method. Floats are modelled as mathematical reals throughout, without rounding.
- Physics wrappers (Box2D, Bullet), `rfRandom` (a clock-seeded Mersenne twister) and the custom cursor: thin wrappers with nothing deterministic to state.
- Packet: the `size()` getter is a plain read of `header.size`, whose agreement with the body is the class invariant.
- Encryption.CryptoHandler.Decrypt: requires a body at least `MACBYTES` long when the packet is not empty. For a shorter one the source sizes a stack array by a wrapped-around `size_t`, which is undefined behaviour.
- Encryption.EncryptionHandler.Decrypt: requires the same of a packet that claims to be encrypted.
- AssetManager: `std::type_info` is modelled by a type tag string. `Add`'s move from the caller's object is modelled as storing the value; the moved-from object on the caller's side is not.
- AssetManager.AssetManager.AddOrReplace: `Asset` holds a `const std::type_info&` member (include/core/rfAssetManager.hpp:19), which deletes its move assignment, so the `insert_or_assign` calls (hpp:131, hpp:144) cannot be instantiated and a program that uses `AddOrReplace` does not compile. The model states the documented effect, the entry stored under the key whether or not one was there.
- MusicManager: the calls on the `raylib::Music` streams (`Play`, `Stop`, `Pause`, `Resume`, `Update` and the volume/pitch/pan setters) are recorded as a log. Whether the current stream has finished is an input to `Update`, and `GetRandomValue` is a nondeterministic choice. The getters `GetVolume`, `GetPitch`, `GetPan` and `IsLooping` are plain reads of fields the setters' contracts state.
- MusicManager.MusicManager.NextMusic: requires a non-empty current playlist (`CurrentPlaylistNonEmpty`). `NewPlaylist` can build an empty one, and stepping through it divides by zero.
- MusicManager.MusicManager.PreviousMusic, MusicManager.MusicManager.Update: the same precondition (as have `NextMusicPlaying`, `UpdatePlaying` and `Play` of the empty name).
- MusicManager.MusicManager.RandomMusic: the retry loop that draws until the index differs is modelled as one choice of a different index, so a random source that never yields one is not modelled. The branch for a one-track playlist, which follows the size check, is unreachable and is not modelled.
- Particles: the three random draws per emitted particle (velocity x, velocity y and radius) are a parameter; each is assumed to lie within the range its distribution was built from. The lifetime is the emitter's own, not drawn. The default constructor's emitter fields, uninitialised in the source, are zero. The destructor (which frees the array) is not modelled.
- SaveManager: the file system is a map from paths to bytes, with a set of read-only paths. A failed write leaves some prefix of the bytes, chosen nondeterministically. The version read from a file too short to hold one is indeterminate in the source and is a parameter (`indeterminate`). The callback for an incompatible version receives the remaining bytes rather than the stream. Bytes are integers 0..255. The `Load`/`Write` template argument's size equals the size given to the constructor.
- SaveManager.SaveManager.Load: the leak of the old data buffer when `data` is made to alias `origin` is not modelled, because memory is not reclaimed in Dafny.
- Sprite: the release build is modelled, so the debug-build fallbacks in key lookups are left out. The default constructor's texture pointer, uninitialised in the source, is null. `GetFrameSize` is a plain read of `frameSize`.
- Sprite.Sprite.LoadFromFile, Sprite.Sprite.LoadFromImage: the crop gives the texture exactly the rectangle's size. raylib's `ImageCrop` clamps the rectangle to the image, which is not part of this model, so a rectangle reaching past the image is taken as given.
- Sprite.Sprite.NewAnimation, Sprite.Sprite.RemoveInstance, Sprite.Sprite.ClearInstances: the sprite owns its animations and instances through `unique_ptr` (include/gfx2d/rfSprite.hpp:62-63), while an instance points at its animation and callers hold instances through raw pointers (hpp:47). Rebinding an animation key (source/gfx2d/rfSprite.cpp:72) or erasing instances (cpp:199, cpp:211) destroys objects those pointers still reach. The model keeps every object alive, so it does not capture the dangling pointers or a later read through them.
- App: rendering, the window, the renderers' getters and setters (`IsAspectRatioKept`, `GetAspectRatio`, `GetResolution`, `KeepAspectRatio`, `SetResolution`, `ToggleFullscreen`, `ToggleBorderless`, `GetMousePosition`, `SetCursor`), `InitSaveManager`, the web main loop and the `musicManager.Update()` call inside `Loading` are left out.
- App: each frame's `dt` and the one request the current state's `Update` makes are inputs (`Frame`). The window closing is modelled as the frames running out, and the `Loading` worker thread's flag is an input: for each frame, the value its first read (the `PostTask` latch) and its later reads (the fade, where the last read decides) see.
- App: a state's `Update` is modelled as making at most one request per frame, and only the current state's request is applied. A request made by the pending state's `Update` during a transition (source/core/rfApp.cpp:50), and several requests from a single `Update`, are not modelled.
- App.App.Transition: requires a non-zero duration, because `1/duration` would be infinite.
- App.App.Run: the guarantee that no state is left entered assumes that, beforehand, at most a pending next state is entered.
- Lights: the casting camera (`Camera`) has the fields of raylib's `Camera3D` (position, target, up, field of view, projection), not those of `gfx3d::Camera` (include/gfx3d/rfCamera.hpp:13-31), so the light constructor's `caster.aspect = 1.0f` (source/gfx3d/rfLights.cpp:507) is not reflected.
- Lights: shader uniforms, `UpdateMatrix`, `Update`, `Draw`, `DrawDepth`, `DrawMap`, the `ShadowMap` framebuffer and the GPU part of `Load` are left out. The agreement of the `uint32` round-up (`NearestUpperSquare`) with the integer one the layout uses (`NextPow2`) on `1..2^31` is stated by their separate contracts, not proved as one lemma.
- Lights.Light.GetPosition, Lights.Light.GetTarget, Lights.Light.GetFovY, Lights.Light.GetRadius, Lights.Light.GetColor, Lights.Light.IsActive: plain reads; what they return is stated through the setters' contracts.
- Lights.Lights.constructor: requires `maxLights * mapSize < 2^31`, because the product is computed in `int` and a larger one overflows, which is undefined behaviour.
- Lights.Lights.FromIntensity: also requires the ambient intensity times 255 to lie in `(-1, 256)`, because converting a float outside that range to `uint8_t` is undefined behaviour. Inside it the conversion truncates toward zero, as modelled.
- Lights.Lights.AddShadowLight: with an atlas and room left, requires every light already present to cast shadows. The layout loop dereferences each light's shadow map, which is null for a light added by `AddLight`.

## Findings

| source | as written | input that shows it | evidently intended | confidence | as-written member | corrected member |
|---|---|---|---|---|---|---|
| source/gfx2d/rfParticles.cpp:86 | `Emit` counts with a `uint8_t`, which wraps at 256, so for `num > 255` the loop runs until the pool is full | `Emit(300)` on an empty pool of capacity 1000 appends 1000 particles | `min(num, free capacity)` particles are appended | not executed | Particles.ParticleSystem.Emit, Particles.EmitWrapCounterexample | Particles.ParticleSystem.EmitBounded, Particles.Emitted |
| include/core/rfMusicManager.hpp:511-514 | `CurrentPlaylist()` dereferences the playlist pointer whenever a stream plays | `Play(name)` of a loaded stream with no playlist set, then `CurrentPlaylist()` | `""` unless a stream plays from a playlist | not executed | MusicManager.MusicManager.CurrentPlaylistAsWritten, MusicManager.PlayByNameThenCurrentPlaylist | MusicManager.MusicManager.CurrentPlaylistName |
| include/core/rfMusicManager.hpp:523-548 | `NextMusic`/`RandomMusic` stop the current stream and select the new track without starting it, so when a playlist track ends `Update` leaves the manager silent | a playlist of two tracks, not looping or randomized, whose current track finishes | the documented "play the next music": the new track is started | not executed | MusicManager.MusicManager.NextMusic, MusicManager.PlaylistAdvanceIsSilent | MusicManager.MusicManager.NextMusicPlaying, MusicManager.MusicManager.UpdatePlaying |
| include/core/rfSaveManager.hpp:123-128 | on `LOAD_FAILURE` the data pointer is set to the defaults buffer itself, so a later short load writes into the defaults (the old data buffer leaks, and the destructor at hpp:58-59 then deletes the one remaining buffer twice) | defaults `[0, 0]`, a file holding the version and then `[7]`, loaded twice | the defaults are copied back into the data buffer and never written | not executed | SaveManager.SaveManager.Load, SaveManager.ShortLoadsCorruptDefaults | SaveManager.SaveManager.LoadRestoring, SaveManager.ShortLoadsRestoreDefaults |
| include/core/rfAssetManager.hpp:193-199 | `Get<T>` on an asset of another type throws `std::bad_cast` | an asset stored as `int`, read with `Get<float>` | null, as the comment at lines 186-192 documents | not executed | AssetManager.GetAsWritten, AssetManager.GetMismatchCounterexample | AssetManager.GetOrNull |
| include/core/rfApp.hpp:359-366 | `Loading` reads the atomic flag twice per frame, once for the `PostTask` latch and once for the fade, so the worker can finish between the two reads | the first frame, 16 ms long: the latch read sees the work running, the fade read sees it finished, and the opacity, still `EPSILON`, drops to 0 | the flag read once per frame, so the screen cannot become transparent before `PostTask` ran | not executed | App.Loading, App.LoadingRace | App.LoadingSingleRead |
| source/gfx2d/rfSprite.cpp:8-11 | the whole-sheet `Load(path, cols, rows, speed)` crops the new image to the size of the texture held before the call | a sprite holding a 64×64 texture loads a 128×32 sheet | the source rectangle is the new image's full size | not executed | Sprite.Sprite.LoadWholeAsWritten, Sprite.WholeSheetCounterexample | Sprite.Sprite.LoadWhole, Sprite.WholeSheetCrop |
