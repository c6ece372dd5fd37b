# MakeHuman material importer for Blender — a Dafny model

This project models the core of `import_mhmat_material.py`. That file is the
Blender add-on operator which imports a MakeHuman `.mhmat` material file as a
node-based Cycles/Eevee material. The model covers two parts.

**The `.mhmat` line parser.**
- A settings record starts from the keyword table's defaults, and its name is
  the file's base name.
- The file is read line by line with a 1-based line counter. Each line is
  stripped. Blank lines and lines that begin with `#` or `//` are skipped.
  Any other line is split on whitespace.
- A keyword from `valid_keywords` must have exactly `nr_args` value tokens,
  and its converter must accept them. If not, the whole import fails with a
  "bad value" failure that names the file, the line and the keyword.
  Otherwise the converted value overwrites the field.
- A keyword from `ignored_keywords` is skipped quietly. Any other keyword
  writes one "unrecognized keyword" warning, and reading continues.

**The shader-graph synthesiser.**
- It builds a fixed skeleton: texture coordinates → mapping → a reroute
  fan-out, and a Principled BSDF → material output.
- It sets the shader's input defaults from the settings.
- It walks the texture maps in the order diffuse, specular, alpha, normal,
  bump. Each map whose texture is set gets an image node at a layout cursor
  that moves 300 down per image. The image node is fed by the fan-out and
  linked, through a bump node, a normal-map node, an optional multiply node
  or nothing, into the BSDF input the `MAP` enum names.
- It then adds the diffuse-alpha fallback link and the displacement texture
  into the material output.
- Finally it sets the blend mode when transparency was seen, and clears
  every node's selection.

Modules, one file each:
- `Wrappers`: `Option` and `Result`.
- `Text`: Python's `str.strip`, `str.split`, `" ".join` and the POSIX
  `os.path.basename`.
- `Keywords`: the value shapes, the converters and the two keyword tables.
- `Maps`: the `MAP` enum.
- `Parser`:
  - `StepLine` is one line's effect on the parse, and `ParsePrefix` folds it
    over the file's lines.
  - The loop of `execute` is `ParseLines`, proved to compute that fold.
  - Lemmas state what the fold produces.
- `NodeGraph`: graphs as values. It also has the mutable `NodeTree` and
  `Material` classes that `nodes.new`, `links.new`, `default_value` and
  `deselect_all` act on.
- `Synthesis`: what the synthesiser builds, as functions on graphs.
- `Synthesiser`: a `Builder` class whose methods drive a `NodeTree` one call
  at a time, with the fixed nodes and shader defaults set by module-level
  methods on the tree. Each method is proved to move the builder's state exactly as
  the matching function of `Synthesis` says.
- `SynthesisFacts`: what the synthesised tree is.
- `Importer`: `execute` itself.

Things outside the model are parameters of `Host`:
- `float()`, as a partial function `parseFloat: string -> Option<real>`;
- the channel count Blender reports for a loaded image, as `imageChannels`.

The file's lines come in as a `seq<string>`. What `execute` writes to stderr
comes back as a list of warnings, and a failure comes back as a `Cancelled`
status that carries the failure record.

## Model

| member | source | states |
|---|---|---|
| Text.Strip | import_mhmat_material.py:290 | the stripped line is empty or begins and ends with a non-whitespace character |
| Text.StripRemovesOnlyWhitespace | import_mhmat_material.py:290 | `strip()` returns a contiguous slice of the line, and everything cut from either end is whitespace |
| Text.Words | import_mhmat_material.py:292 | `split()` yields non-empty words without whitespace; for a line that starts with a non-space character, the first word is the line's first run of non-space characters |
| Text.WordsKeepVisibleText | import_mhmat_material.py:292 | the words of a line, concatenated, are exactly its non-whitespace characters in order |
| Text.WordsOfWord | import_mhmat_material.py:292 | a non-empty run of non-whitespace splits into exactly itself |
| Text.WordsSplitAtSpace | import_mhmat_material.py:292 | every whitespace character is a word boundary: the words of `a + c + b` are the words of `a` followed by those of `b`; with `WordsOfWord` this fixes how many tokens `split()` gives for any line |
| Text.WordsOfJoin | import_mhmat_material.py:292 | splitting undoes joining with single spaces, for non-empty words without whitespace |
| Text.SplitJoined | import_mhmat_material.py:290-292 | a line of such words joined by single spaces strips to itself and splits back into the same words |
| Text.Join | import_mhmat_material.py:126 | `" ".join` of a single word is that word |
| Text.Basename | import_mhmat_material.py:284 | the base name is the suffix of the path after its last `/`: it holds no `/`, and the character before it, if any, is `/` |
| Keywords.ParseAll | import_mhmat_material.py:104 | all tokens convert exactly when `float()` accepts every one, and then the values are the tokens' values in order |
| Keywords.ConvertColour | import_mhmat_material.py:102-105 | `convert_colour` succeeds exactly when every token is a float; the result is those floats in order followed by alpha 1 |
| Keywords.ConvertFloatUpto | import_mhmat_material.py:107-121 | the range-checked converter accepts exactly the values `v` with `0 <= v <= maxval`, both bounds included, and returns `v` |
| Keywords.LoadImage | import_mhmat_material.py:123-146 | the loaded image is linear exactly when it is not a colour image, its file is the one token, and its channel count is what the host reports for that file |
| Keywords.Convert | import_mhmat_material.py:295-301 | whatever a keyword's converter returns has the shape of that keyword's table entry (colour, number, flag or texture) |
| Keywords.KeywordNamed | import_mhmat_material.py:295-297 | looking a token up in `valid_keywords` finds only the keyword spelt exactly that way |
| Keywords.ValidKeywordsSpelled | import_mhmat_material.py:148-265 | every key of `valid_keywords` is the spelling of the keyword it maps to |
| Keywords.KeywordFound | import_mhmat_material.py:148-265 | every keyword is found in `valid_keywords` under its own spelling, so the lookup is a bijection between spellings and keywords |
| Keywords.KeywordListed | import_mhmat_material.py:148-265 | the table order lists every keyword |
| Keywords.KeywordNotIgnored | import_mhmat_material.py:267-272 | no valid keyword is also in `ignored_keywords` |
| Keywords.EntryOf | import_mhmat_material.py:148-265 | each keyword's table entry: the colour keywords take exactly 3 tokens and every other keyword exactly 1 (the `nr_args` column) |
| Keywords.PlainFloatUnchecked | import_mhmat_material.py:100 | `convert_float` is `float()` of the token: a keyword it converts (opacity, the intensities, the scattering scales) is accepted exactly when `float()` accepts its token, and takes that value, negative or above 1 included |
| Keywords.SpellingIsWord | import_mhmat_material.py:148-265 | every keyword is one non-empty word of ASCII letters, with no whitespace, starting with a lower-case letter, so a keyword line is never blank or a comment |
| Keywords.DefaultFits | import_mhmat_material.py:148-265 | every table default has the shape its converter produces |
| Keywords.ShininessInRange | import_mhmat_material.py:157-162 | `shininess` is accepted exactly when its value `v` satisfies `0 <= v <= 1`, and then the field is `v` |
| Keywords.ColourGetsAlpha | import_mhmat_material.py:150-168 | three float tokens for `diffuseColor` or `emissiveColor` give the 4-tuple of those values with alpha 1 |
| Keywords.SssEnabledAnyToken | import_mhmat_material.py:241-246 | `sssEnabled` with any one token, including `False` or `0`, sets the flag to true |
| Keywords.TextureColourSpaces | import_mhmat_material.py:175-234 | a texture keyword loads its one token as an image: colour (not linear) for the diffuse and specular maps, linear for the others |
| Maps.BsdfInputName | import_mhmat_material.py:56-72 | each map's first enum value: Alpha, Normal, Base Color and Specular are Principled BSDF inputs (bump and normal share Normal); the displacement map's "Displacement" names the material output's input, which it feeds instead |
| Maps.MapName | import_mhmat_material.py:56-78 | every map's texture attribute is a texture keyword |
| Maps.IntensityName | import_mhmat_material.py:56-84 | only the diffuse map has no intensity attribute, and every intensity attribute is a plain float |
| Maps.MapNameInjective | import_mhmat_material.py:56-61 | the MAP table's texture attributes are pairwise distinct, so each texture keyword feeds exactly one map |
| Maps.SharedBsdfInput | import_mhmat_material.py:56-61 | two distinct maps share a BSDF input exactly when they are bump and normal, both feeding Normal |
| Maps.LoopOrderCovers | import_mhmat_material.py:431 | the map loop visits every map except displacement, each once |
| Parser.DefaultFieldsHold | import_mhmat_material.py:281-283 | setting the defaults of a list of keywords gives exactly those keywords, each with its table default |
| Parser.DefaultsWellFormed | import_mhmat_material.py:280-285 | the initial record is well formed, and every field holds its table default |
| Parser.InitialSettings | import_mhmat_material.py:280-285 | the loop that sets each keyword's default and then the base name produces the initial record |
| Parser.ClassifySound | import_mhmat_material.py:289-317 | a line is skipped exactly when, stripped, it is blank or begins with `#` or `//`; a known line's words are the keyword's spelling then its value tokens; an ignored or unrecognized line's first word is in, or not in, `ignored_keywords` and is no valid keyword |
| Parser.ClassifyLine | import_mhmat_material.py:289-310 | one line's strip, split and double table lookup give that line's classification |
| Parser.StepLine | import_mhmat_material.py:295-317 | once parsing has failed, later lines change nothing, and a line never takes warnings away |
| Parser.ReadLine | import_mhmat_material.py:295-317 | one classified line moves the parse exactly as `StepLine` says: arity check, conversion and overwrite of one field, failure naming the line, or a warning |
| Parser.NextLine | import_mhmat_material.py:288-317 | reading the next line moves the parse from the state after line `n - 1` to the state after line `n` |
| Parser.ParseLines | import_mhmat_material.py:286-319 | the loop over the file ends with the result and the warnings of the fold over all its lines; on a failure it stops at once |
| Parser.FailedIsFinal | import_mhmat_material.py:302-308 | after a failure, no later line changes the outcome |
| Parser.StepKeepsWellFormed | import_mhmat_material.py:301 | an accepted line keeps every field of its table shape and keeps the name |
| Parser.ParseKeepsWellFormed | import_mhmat_material.py:284-319 | while no line has been rejected, the record is well formed and its name is the file's base name, whatever `name` lines the file holds |
| Parser.StepSetsOneField | import_mhmat_material.py:301 | an accepted line overwrites its own keyword's field and no other |
| Parser.LastAssignmentWins | import_mhmat_material.py:281-301 | every field holds the value of the last accepted line for its keyword, or the table default when there is none |
| Parser.StepWarnings | import_mhmat_material.py:310-317 | a line adds a warning exactly when parsing is still going and its keyword is unrecognized, and the warning names that line and keyword |
| Parser.QuietLine | import_mhmat_material.py:291-317 | a blank, comment or ignored line changes nothing; an unrecognized keyword keeps the settings, keeps reading and adds exactly one warning for its line |
| Parser.WarningsAreUnrecognizedLines | import_mhmat_material.py:310-317 | every warning names an unrecognized-keyword line of the file with its keyword; the warnings are in line order; with no failure there is one warning per such line |
| Parser.FailureIsFirstRejectedLine | import_mhmat_material.py:295-308 | a failure names the file and a line `L`: every line before `L` was read without failing, line `L` holds a known keyword whose arity or value is rejected, and the failure quotes that keyword |
| Parser.ClassifyJoined | import_mhmat_material.py:289-297 | a line written as a keyword and non-empty whitespace-free tokens, separated by single spaces, is classified as that keyword with exactly those tokens |
| Parser.ClassifyWords | import_mhmat_material.py:289-297 | the same for any word that names the keyword and starts with a lower-case letter |
| Parser.NotBlankOrComment | import_mhmat_material.py:291 | a line that starts with a lower-case letter is neither blank nor a `#` or `//` comment |
| Parser.ClassifyTwoTokens | import_mhmat_material.py:289-297 | a keyword followed by two tokens is classified as that keyword with those two tokens |
| Parser.SpacedValueAborts | import_mhmat_material.py:289-308 | a one-token keyword (any texture, for one) whose value is written as two words, as a file name holding a space is, fails the import at that line |
| Parser.RejectedLineAborts | import_mhmat_material.py:298-308 | a known keyword whose line is rejected, with the wrong number of value tokens (a texture file name holding a space, say) or a value its converter refuses, fails the import at that line, whatever follows |
| Parser.BadShininessAborts | import_mhmat_material.py:107-121 | a `shininess` line whose token `float()` refuses, or whose value lies outside [0, 1], fails the import at that line, whatever follows |
| Parser.LeadingSkipShiftsLines | import_mhmat_material.py:286-291 | a skipped first line leaves the outcome unchanged except that every reported line number grows by one |
| Parser.CommentLineShiftsFile | import_mhmat_material.py:286-291 | putting a blank or comment line in front of a file changes neither the settings nor whether the import fails, and moves every warning and failure one line down |
| NodeGraph.Deselected | import_mhmat_material.py:42-46 | every node's selection is cleared and nothing else about it changes |
| NodeGraph.NodeTree.constructor | import_mhmat_material.py:324-327 | the node tree once its default nodes are removed is empty |
| NodeGraph.NodeTree.NewNode | import_mhmat_material.py:328-329 | `nodes.new` with a location appends one selected node with no input defaults and returns its number |
| NodeGraph.NodeTree.SetDefault | import_mhmat_material.py:350 | setting `default_value` changes that one input of that one node and no link |
| NodeGraph.NodeTree.NewLink | import_mhmat_material.py:332 | `links.new` appends exactly one link |
| NodeGraph.NodeTree.DeselectAll | import_mhmat_material.py:42-46 | afterwards no node is selected, every node is otherwise unchanged, and the links are untouched |
| NodeGraph.Material.constructor | import_mhmat_material.py:320-327 | a new material has the given name, is opaque, and has an empty node tree of its own |
| Synthesis.AddTexture | import_mhmat_material.py:358-366 | `new_image_texture_node` appends one image node at the cursor and one link from the fan-out into it, moves the cursor 300 down, and keeps everything else |
| Synthesis.MapStep | import_mhmat_material.py:434-463 | one map pass only appends; it sets transparency exactly for an alpha map or a diffuse image with more than 3 channels; it records the diffuse image node only in the second case |
| Synthesis.AlphaFallback | import_mhmat_material.py:465-477 | the fallback only appends, and keeps the cursor and the flags |
| Synthesis.DisplacementStep | import_mhmat_material.py:478-497 | the displacement pass only appends, and sets transparency exactly when the displacement image has more than 3 channels |
| SynthesisFacts.IntensityTame | import_mhmat_material.py:368-388 | `add_intensity_nodes` adds at most one non-image node, fed by its input, and returns that input or the new node's output |
| SynthesisFacts.SpecialTame | import_mhmat_material.py:390-422 | the bump, normal-map and intensity helpers each add at most one non-image node, fed by their input, and return that input or an output of the new node that is not named Alpha |
| SynthesisFacts.StepSound | import_mhmat_material.py:434-463 | a map pass keeps every link between existing nodes and every image node fed by the fan-out, and adds no link out of an Alpha socket |
| SynthesisFacts.PrefixSound | import_mhmat_material.py:431-464 | the map loop keeps the tree closed and every image fed, with no link out of an Alpha socket |
| SynthesisFacts.PrefixExtends | import_mhmat_material.py:431-464 | later passes of the map loop only append to earlier ones |
| SynthesisFacts.PrefixPlaces | import_mhmat_material.py:431-437 | after the first `n` passes, the image nodes are the set textures of those maps in loop order, at x = -100 and y = 0, -300, -600, …, and the cursor sits at the next slot |
| SynthesisFacts.TexturesPlaced | import_mhmat_material.py:358-479 | in the finished tree, the image nodes are exactly the set textures, diffuse, specular, alpha, normal, bump and then displacement, in their layout slots |
| SynthesisFacts.StepWires | import_mhmat_material.py:434-462 | a map with a texture has its image node feeding its BSDF input through the chain its kind calls for |
| SynthesisFacts.EveryTextureWired | import_mhmat_material.py:368-493 | in the finished tree, every set texture feeds its destination: a bump node (Height → Normal) for bump, a normal-map node (Color → Normal) for normal, a multiply node by the intensity when it is not 1 for the other maps with an intensity, and a direct link otherwise; the extra node sits one column right of the image, one slot lower for displacement; bump and normal-map Strength is set only when the intensity is not 1 |
| SynthesisFacts.StepAddsOnlyChain | import_mhmat_material.py:434-462 | a map pass with a texture adds exactly its image node at the cursor, its chain's node (if any) one column right, the fan-out link, the chain's link, and the link from the chain's end into the map's BSDF input, and nothing else |
| SynthesisFacts.DisplacementAddsOnlyChain | import_mhmat_material.py:478-494 | the displacement pass with a texture adds exactly its image node, its multiply node (if any) one column right and one slot lower, the fan-out link, the multiply node's link, and the link into the material output's Displacement, and nothing else |
| SynthesisFacts.StepOnlyChains | import_mhmat_material.py:434-462 | a map pass keeps every link into a fixed node a skeleton link, a link out of an Alpha socket, or a link from the end of some set map's chain into that map's destination |
| SynthesisFacts.PrefixOnlyChains | import_mhmat_material.py:431-464 | the map loop keeps every link into a fixed node one of those three kinds |
| SynthesisFacts.DisplacementOnlyChains | import_mhmat_material.py:478-494 | the displacement pass keeps every link into a fixed node one of those three kinds |
| SynthesisFacts.FinishedOnlyChains | import_mhmat_material.py:431-494 | the loop, the fallback and the displacement pass leave every link into a fixed node one of those three kinds |
| SynthesisFacts.PlanOf | import_mhmat_material.py:434-457 | a map contributes a chain exactly when its texture is set, and then it is that texture and the chain its map calls for |
| SynthesisFacts.OnlyChainsReachDestination | import_mhmat_material.py:458-493 | in the finished tree, every link into a map's destination leaves the end of that map's chain (an image's Color, or a chain node's output fed by the image just before it), or of the other map's chain for bump and normal, which share the BSDF's Normal, or, into Alpha, is the diffuse image's Alpha when no transparency map is set; no map adds a link anywhere else |
| SynthesisFacts.LoopTransparency | import_mhmat_material.py:429-445 | after the map loop, transparency is flagged exactly when opacity < 1, an alpha map is set, or the diffuse image has more than 3 channels |
| SynthesisFacts.BlendWhenTransparent | import_mhmat_material.py:429-500 | the blend mode is BLEND exactly when opacity < 1, a transparency map is set, or the diffuse or displacement image has more than 3 channels |
| SynthesisFacts.LoopDiffuseNode | import_mhmat_material.py:430-445 | after the map loop, the recorded diffuse node is the first image node (number 5) exactly when the diffuse image has more than 3 channels, and none otherwise |
| SynthesisFacts.FallbackKeeps | import_mhmat_material.py:465-477 | the fallback adds only the diffuse-Alpha → BSDF-Alpha link, and adds it exactly when transparency is flagged, no transparency map is set and a diffuse node was recorded |
| SynthesisFacts.FallbackSound | import_mhmat_material.py:465-493 | after the fallback and displacement, the only link out of an Alpha socket is the fallback link from the diffuse image |
| SynthesisFacts.AlphaFallbackExactly | import_mhmat_material.py:465-477 | the finished tree has a link out of an Alpha socket exactly when no transparency map is set and the diffuse image has more than 3 channels; that link runs from the diffuse image node's Alpha to the BSDF's Alpha |
| SynthesisFacts.TreeClosedAndDeselected | import_mhmat_material.py:328-501 | in the finished tree, every link joins existing nodes, every image node is fed by the fan-out, and no node is selected |
| SynthesisFacts.SkeletonKept | import_mhmat_material.py:328-342 | the finished tree begins with the five skeleton nodes, deselected, and keeps the skeleton's three links |
| SynthesisFacts.ShaderDefaults | import_mhmat_material.py:343-355 | the finished tree's BSDF node has exactly the input defaults the settings call for |
| SynthesisFacts.ShaderInputsMeaning | import_mhmat_material.py:343-355 | the BSDF defaults are the diffuse and emissive colours with alpha 1, the opacity, Subsurface 1 or 0 by the subsurface flag, the three scattering scales, and Roughness 1 - shininess, which lies in [0, 1] |
| Synthesiser.Builder.constructor | import_mhmat_material.py:328-355 | the builder starts from the skeleton with the shader defaults set, the cursor at (-100, 0), and transparency from the opacity alone |
| Synthesiser.AddSkeleton | import_mhmat_material.py:328-342 | on an empty tree, the five fixed nodes and their three links are exactly the skeleton graph, with no shader defaults set yet |
| Synthesiser.SetShaderInputs | import_mhmat_material.py:343-355 | setting the six shader inputs gives the BSDF node exactly the defaults `ShaderInputs` names and leaves the links alone |
| Synthesiser.SetColourInputs | import_mhmat_material.py:343-351 | the colour loop sets Base Color, Emission and Alpha to the diffuse colour, the emissive colour and the opacity |
| Synthesiser.SetSubsurfaceInputs | import_mhmat_material.py:352-355 | Subsurface, Subsurface Radius and Roughness are added to the colour defaults, completing `ShaderInputs` |
| Synthesiser.Builder.NewImageTextureNode | import_mhmat_material.py:358-366 | the method returns the new image node's number and moves the builder's state as `AddTexture` says |
| Synthesiser.Builder.AddIntensityNodes | import_mhmat_material.py:368-388 | the helper builds the tree and output that `IntensityNodes` describes |
| Synthesiser.Builder.AddBumpConvertNodes | import_mhmat_material.py:390-405 | the helper builds the tree and output that `BumpConvertNodes` describes |
| Synthesiser.Builder.AddNormalMappingNodes | import_mhmat_material.py:407-422 | the helper builds the tree and output that `NormalMappingNodes` describes |
| Synthesiser.Builder.ImportMap | import_mhmat_material.py:434-463 | one pass of the map loop moves the builder's state as `MapStep` says |
| Synthesiser.Builder.NoteTransparency | import_mhmat_material.py:438-445 | `got_transparency` is set exactly when the map flags transparency (the alpha map, or a diffuse image with more than 3 channels), and `diffuse_map_node` becomes the new node exactly in the diffuse case; the cursor is untouched |
| Synthesiser.Builder.AddSpecialNodes | import_mhmat_material.py:446-457 | the bump and normal maps get their converter nodes and every other map its intensity nodes, as `SpecialNodes` says |
| Synthesiser.Builder.ImportMaps | import_mhmat_material.py:431-464 | the map loop ends in the state after all five passes |
| Synthesiser.Builder.LinkDiffuseAlpha | import_mhmat_material.py:465-477 | the fallback moves the state as `AlphaFallback` says |
| Synthesiser.Builder.ImportDisplacement | import_mhmat_material.py:478-497 | the displacement step moves the state as `DisplacementStep` says |
| Synthesiser.BuildMaterial | import_mhmat_material.py:320-501 | the new material is named after the settings, and its node tree and blend mode are exactly what `Synthesize` gives, so every `SynthesisFacts` lemma holds of it |
| Importer.Execute | import_mhmat_material.py:278-510 | `execute` always returns the warnings of the whole parse; it is cancelled exactly when some line was rejected, with that line's failure and no material; otherwise it finishes with a new material named after the file, whose tree and blend mode are `Synthesize` of the parsed settings |

## Left out

- File I/O: the file's lines are an input sequence. Reading as UTF-8 and line
  endings are not modelled.
- `float()`: the model takes it as a host function `parseFloat`. The model
  carries reals, so floating-point rounding is not modelled.
- Keywords.ConvertFloatUpto: NaN and the infinities cannot be represented
  by a real, so the model has no value for `float("nan")` or
  `float("inf")`. In the program, `shininess nan` passes the range check at
  line 111, because every comparison with NaN is false, and Roughness
  becomes NaN at line 355. The model's promise that an accepted value lies
  in [0, maxval] holds only for finite floats.
- Keywords.ShininessInRange: holds only for finite floats, for the same
  reason; `shininess nan` is accepted by the program.
- SynthesisFacts.ShaderInputsMeaning: Roughness lies in [0, 1] only for a
  finite shininess; after `shininess nan` the program sets it to NaN.
- Text.Basename: splits only on `/`, as POSIX `os.path.basename` does. Under
  Blender on Windows, `ntpath.basename` also splits on `\` and after a
  drive colon; that is not modelled.
- Keywords.LoadImage: Blender's image loading is not modelled. This covers
  `bpy.data.images.load`, packing, the colour-space name, the image name and
  file-path rewriting, and joining the token to the file's directory. An
  image is its token, the channel count the host reports, and its linear
  flag. A load error is a `RuntimeError`, which `execute` does not catch, so
  it is outside the model.
- `sys.stderr.write` and `self.report` are not modelled as output. Warnings
  come back as a list, and a failure comes back in the `Cancelled` status.
  The failure message text is reduced to its file, line and keyword.
- `material.diffuse_color` and `material.cycles.displacement_method` are not
  modelled. They are properties of the material that the node graph does not
  show.
- NodeGraph.NodeTree.constructor: the default nodes that `use_nodes` creates,
  and the loop that removes them, are not modelled. The tree starts empty.
- SynthesisFacts.EveryTextureWired: the normal map's link into the BSDF's
  Normal input is stated as it is made. When a bump map is also set, the
  bump map's later link into the same input replaces it in Blender (lines
  458-462), so in the program the normal map then feeds nothing. The model
  keeps both links, and `SynthesisFacts.OnlyChainsReachDestination` states
  that these two are the only chains into Normal; see the next item.
- NodeGraph.NodeTree.NewLink: Blender's handling of links is not modelled.
  - A second link into an input that already has one replaces the first; this
    happens when both a bump and a normal map are set. In the model, links
    are only appended.
  - `links.new` accepts its two sockets in either order. The texture-node
    link at line 362 is written input-first, and the model records it from
    the fan-out to the image.
- The names Blender gives new materials (`.001` suffixes) are not modelled.
- The add-on registration and menu glue (`bl_info`, `add_invoke_item`,
  `register`, `unregister`) is not modelled.
