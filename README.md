# Brand compliance checks and static-site build, modelled in Dafny

This project models two parts of the Flows123 landing-page repository.

The first part is the brand-compliance test suite.
- `hexToRgb` decodes a hex colour.
- `getLuminance` and `getContrastRatio` compute WCAG 2.0 relative luminance and contrast ratio.
- The contrast tests apply a fixed table of minimum ratios.
- The palette test scans a stylesheet for `#RRGGBB` literals and checks each against the token palette plus two tolerated greys.
- The logo tests count distinct `fill` attributes and check that the first fill is an approved foreground.
- The asset tests check the required file names and the 2 KB size bound.
- The substring tests look for the logo gap, the Manrope font and the font weights.

The second part is the build script's page generation.
- It merges the site and page settings into each template context.
- It writes each rendered page under `dist/`.
- It builds `sitemap.xml` from the page table, one `<url>` entry per page.
- It writes `robots.txt`.

Modules:
- `Wrappers`: `Option` and `Result`.
- `Ascii`: character classes and case mapping.
- `Strings`: `startsWith`, `endsWith`, `indexOf` and `includes`.
- `Color`: the hex decoder.
- `Contrast`: luminance and contrast ratio.
- `Tokens`: the brand tokens and the approved palette.
- `ContrastPolicy`: the threshold table.
- `Scanner`: the two global regular expressions and the leftmost-match search.
- `Palette`: the stylesheet palette test.
- `Assets`: the logo fill, foreground, required-asset and size tests.
- `TextChecks`: the substring tests.
- `Site`: the site configuration, page table, render context and page-building loop.
- `Sitemap`: the sitemap and robots files.

Modelling choices:
- The tests that loop over files or directory entries are methods that return whether they pass: `Palette.PaletteTest`, the four `Assets.Check…` methods and `TextChecks.CheckFontWeights`.
- The other tests are predicates. Each contrast test is `ContrastPolicy.Meets` of one requirement, and `ContrastPolicy.SuitePasses` is all of them. The gap and Manrope tests are `TextChecks.GapOk` and `TextChecks.FontFamilyOk`.
- A missing file or directory is an `Option` input that is `None`, and then the test passes.
- Luminance is computed in exact reals. `Math.pow(x, 2.4)` is a parameter `pow` from [0,1] to [0,1]. The contrast table is stated against any ratio function, so it holds for every choice of `pow`.
- The scanner follows JavaScript semantics for `\b` and the greedy left-to-right global `match`. It is proved equal to "the text at every match position, in order".
- The hex decoder follows JavaScript semantics for the anchors `^` and `$` without the `m` flag: a trailing newline is refused (`Color.RejectsMalformed`).
- Case mapping is ASCII `toLowerCase` and `toUpperCase`.

Four behaviours of the code that a reader might expect otherwise; the model follows the code:
- The palette test fails on the raw list of unapproved literals, including duplicates and in their original spelling. Only the console warning deduplicates them.
- The fill count deduplicates the exact matched text. Quote style and letter case therefore make otherwise equal fills count separately (`Assets.SpellingsCountSeparately`).
- The gap test accepts `gap: 6px` anywhere in the stylesheet, not only inside a logo rule (`TextChecks.GapMatchesRowGap`).
- The required-asset test and the size test stop at the first failing file, as a failed `expect` does. They report pass or fail rather than every failing name.

## Model

| member | source | states |
|---|---|---|
| Ascii.HexValue | tests/brand/color-contrast.test.js:23-25 | the value `parseInt(…, 16)` gives one hex digit is below 16, and below 10 exactly for decimal digits |
| Color.HexToRgb | tests/brand/color-contrast.test.js:20-27 | succeeds iff the input is six hex digits with at most one leading `#`, anchored at both ends; each channel is 16·hi + lo of its pair and lies in [0,255] |
| Color.DecodeEncoded | tests/brand/color-contrast.test.js:20-27 | decoding the `#rrggbb` spelling of any in-range colour gives that colour back |
| Color.EncodeDecoded | tests/brand/color-contrast.test.js:21-25 | re-encoding a decoded colour reproduces the input's six digits, lower-cased |
| Color.CaseInsensitiveWith | tests/brand/color-contrast.test.js:21 | a lower- or upper-cased spelling decodes to the same result as the original |
| Color.CaseInsensitive | tests/brand/color-contrast.test.js:21 | the `i` flag: `Lower(s)`, `Upper(s)` and `s` decode alike |
| Color.RejectsMalformed | tests/brand/color-contrast.test.js:21-26 | shorthand, eight digits, a doubled `#`, a non-hex digit, leading space and a trailing newline are all refused |
| Contrast.Linearize | tests/brand/color-contrast.test.js:13-16 | a channel takes the linear segment c/255/12.92 at or below the 0.03928 threshold and the power segment above it, with a result in [0,1] |
| Contrast.Luminance | tests/brand/color-contrast.test.js:9-18 | a string that does not decode has luminance 0; every luminance lies in [0,1] |
| Contrast.Ratio | tests/brand/color-contrast.test.js:29-35 | (lighter+0.05)/(darker+0.05) lies in [1,21] and equals 1 exactly when the luminances are equal |
| Contrast.ContrastSymmetric | tests/brand/color-contrast.test.js:29-35 | swapping the two colours leaves the ratio unchanged |
| Contrast.ContrastRange | tests/brand/color-contrast.test.js:29-35 | every ratio is in [1,21] and is 1 iff the two luminances agree |
| Contrast.LinearSegment | tests/brand/color-contrast.test.js:14-15 | exactly channels 0 to 10 fall at or under the linear threshold |
| Contrast.BlackIsDark | tests/brand/color-contrast.test.js:9-18 | `#000000` has luminance 0 for every `pow` |
| Contrast.WhiteIsLight | tests/brand/color-contrast.test.js:9-18 | `#FFFFFF` has luminance 1 when `pow(1) = 1` |
| Contrast.MalformedIsBlack | tests/brand/color-contrast.test.js:10-11 | a malformed colour has the luminance of black and gives the same ratios as black |
| Contrast.BlackOnWhite | tests/brand/color-contrast.test.js:29-35 | black against white reaches the maximum ratio 21 |
| ContrastPolicy.FixedRequirements | tests/brand/color-contrast.test.js:56-103 | there are eight fixed tests; which pair each holds to which minimum is stated by `ContrastPolicy.SuiteTable` |
| ContrastPolicy.Requirements | tests/brand/color-contrast.test.js:43-103 | the suite has one test per approved combination plus the eight fixed pairs |
| ContrastPolicy.AllMeetConcat | tests/brand/color-contrast.test.js:43-103 | a list of tests passes iff both of its parts pass |
| ContrastPolicy.CombinationsTable | tests/brand/color-contrast.test.js:43-54 | the combination tests pass iff every approved combination reaches 3, background against foreground |
| ContrastPolicy.SuiteTable | tests/brand/color-contrast.test.js:39-103 | the whole suite passes iff every combination reaches 3, the five text pairs reach 4.5, success and error on white reach 3 and warning on white reaches 2.5 |
| ContrastPolicy.BoundaryPasses | tests/brand/color-contrast.test.js:51 | a ratio exactly at its minimum passes, because the comparison is `>=` |
| ContrastPolicy.WhiteOnBlackPasses | tests/brand/color-contrast.test.js:73-76 | with white `#FFFFFF` and black `#000000` the white-on-black test passes |
| ContrastPolicy.MalformedOnBlackFails | tests/brand/color-contrast.test.js:10-11 | a background that does not decode, tested against black, fails every minimum above 1 |
| Tokens.TokenColors | tests/brand/brand-compliance.test.js:19-32 | the palette lists thirteen token colours |
| Tokens.ApprovedColors | tests/brand/brand-compliance.test.js:19-33 | defined as the thirteen token colours mapped through `toLowerCase`; what approval means is stated by `Tokens.ApprovedColorsMembership` and `Palette.ApprovedIffAllowed` |
| Tokens.ApprovedColorsMembership | tests/brand/brand-compliance.test.js:19-33 | a string is in the approved palette iff it is the lower-cased form of some token colour |
| Scanner.Positions | tests/brand/brand-compliance.test.js:43-44 | every listed match position leaves room for a whole match |
| Scanner.PositionsExact | tests/brand/brand-compliance.test.js:43-44 | the listed positions are exactly the positions where the pattern matches |
| Scanner.PositionsIncrease | tests/brand/brand-compliance.test.js:43-44 | match positions are listed left to right |
| Scanner.NoOverlap | tests/brand/brand-compliance.test.js:43 | no match of either pattern starts inside another match of the same pattern |
| Scanner.ScanIsEveryMatch | tests/brand/brand-compliance.test.js:44 | the greedy global `match` returns the text at every match position, in order |
| Scanner.ScannedAreMatches | tests/brand/brand-compliance.test.js:44 | every scanned string is the text of a match |
| Scanner.MatchesAreScanned | tests/brand/brand-compliance.test.js:44 | every match in the text is among the scanned strings |
| Scanner.WordCharAfterLiteral | tests/brand/brand-compliance.test.js:43 | six digits followed by a letter, digit or `_` are not matched |
| Scanner.SevenDigitsNoMatch | tests/brand/brand-compliance.test.js:43 | a `#` followed by seven or more hex digits is not matched there |
| Scanner.LiteralBeforeBoundary | tests/brand/brand-compliance.test.js:43 | six digits at the end of the text or before a non-word character are matched |
| Scanner.First | tests/brand/brand-compliance.test.js:136 | the non-global `match` finds a match position with no match before it, or reports that there is none |
| Scanner.FirstIsFirstPosition | tests/brand/brand-compliance.test.js:136 | the leftmost match is the first of all match positions |
| Scanner.FirstIsHeadOfScan | tests/brand/brand-compliance.test.js:136 | a leftmost match exists iff the global scan is non-empty, and then it is the scan's first string |
| Scanner.FillMatchIsLocal | tests/brand/brand-compliance.test.js:77 | text appended after a fill attribute does not change whether it matches |
| Scanner.FillMatchShift | tests/brand/brand-compliance.test.js:77 | text prepended before a fill attribute does not change whether it matches |
| Scanner.FirstFillIgnoresSuffix | tests/brand/brand-compliance.test.js:136 | appending text cannot change which fill attribute is leftmost |
| Palette.ApprovedIffAllowed | tests/brand/brand-compliance.test.js:48-51 | a literal is approved iff its lower-cased form is in the set of lower-cased token colours plus `#e5e5e5` and `#f0f0f0`; the repeated `#e5e5e5` changes nothing |
| Palette.ApprovalIgnoresCase | tests/brand/brand-compliance.test.js:48-51 | upper- and lower-casing a literal does not change whether it is approved |
| Palette.UnapprovedMembers | tests/brand/brand-compliance.test.js:46-56 | a string is pushed iff it was found and is not approved |
| Palette.UnapprovedCounts | tests/brand/brand-compliance.test.js:46-56 | each unapproved literal is pushed as many times as it occurs; approved ones never |
| Palette.UnapprovedEmpty | tests/brand/brand-compliance.test.js:53-62 | nothing is pushed iff every found literal is approved |
| Palette.CheckStylesheet | tests/brand/brand-compliance.test.js:38-62 | a missing stylesheet passes with nothing pushed; otherwise the loop pushes exactly the unapproved literals in scan order, and the test passes iff that list is empty |
| Palette.StylesheetPassesOnText | tests/brand/brand-compliance.test.js:43-62 | a stylesheet passes iff every position where the literal pattern matches spells an approved colour |
| Palette.ScannedLiteralsDecode | tests/brand/brand-compliance.test.js:43-44 | every scanned literal is a `#` and six hex digits that the hex decoder accepts |
| Palette.PaletteTest | tests/brand/brand-compliance.test.js:35-64 | the test passes iff every listed stylesheet is missing or passes |
| Assets.LogoFileShape | tests/brand/brand-compliance.test.js:70-71 | every logo file name is an SVG name and has at least nine characters |
| Assets.ThreeFillsExceed | tests/brand/brand-compliance.test.js:77-81 | three fill matches with pairwise different texts fail the count |
| Assets.ExceededHasThreeFills | tests/brand/brand-compliance.test.js:77-81 | a failing count has three fill matches with pairwise different texts |
| Assets.FillCountOkIff | tests/brand/brand-compliance.test.js:77-81 | the count fails iff three positions hold fill attributes with pairwise different texts |
| Assets.FillTextMatches | tests/brand/brand-compliance.test.js:77 | `fill=`, a quote, `#`, six hex digits and a quote is a match |
| Assets.SpellingsCountSeparately | tests/brand/brand-compliance.test.js:77-81 | one colour written with both quote styles and in upper case counts three times and fails |
| Assets.CheckLogoFillCounts | tests/brand/brand-compliance.test.js:66-83 | passes iff the directory is missing or every `logo-*.svg` file has at most two distinct fill texts |
| Assets.FirstFillColor | tests/brand/brand-compliance.test.js:136-138 | a colour exists iff the SVG has a fill attribute; it is `#` and six characters, already upper-case |
| Assets.FirstFillIsFirstScanned | tests/brand/brand-compliance.test.js:136-138 | the colour judged is the upper-cased colour of the first attribute of the global fill scan |
| Assets.OnlyFirstFillJudged | tests/brand/brand-compliance.test.js:136-146 | once an SVG has a fill, text appended to it cannot change the foreground verdict |
| Assets.ForegroundAtFirstFill | tests/brand/brand-compliance.test.js:136-145 | with the leftmost fill at i, the SVG passes iff some combination's upper-cased foreground equals that fill's upper-cased colour |
| Assets.CheckLogoForegrounds | tests/brand/brand-compliance.test.js:125-148 | passes iff the directory is missing or every logo file passes the foreground check |
| Assets.CheckRequiredAssets | tests/brand/brand-compliance.test.js:154-175 | passes iff the directory is missing or each of the ten required names is in it |
| Assets.RequiredAssetsAreSvg | tests/brand/brand-compliance.test.js:158-169 | the ten required names all end in `.svg` |
| Assets.UnderSizeLimitIff | tests/brand/brand-compliance.test.js:186-188 | `size / 1024 < 2` holds iff the size is under 2048 bytes |
| Assets.CheckSvgSizes | tests/brand/brand-compliance.test.js:177-190 | passes iff the directory is missing or every `.svg` file is under 2048 bytes |
| Strings.IndexOf | tests/brand/brand-compliance.test.js:94 | the result is an occurrence with none before it, or there is no occurrence |
| Strings.ContainsIff | tests/brand/brand-compliance.test.js:94 | `includes` holds iff the needle occurs at some position |
| Strings.ContainsInContext | tests/brand/brand-compliance.test.js:94 | a contained needle stays contained when text is added on either side |
| TextChecks.CheckFontWeights | tests/brand/brand-compliance.test.js:110-119 | passes iff the typography file is missing or contains all three weight declarations |
| TextChecks.GapAnywhere | tests/brand/brand-compliance.test.js:87-97 | any stylesheet with `gap: 6px` somewhere in it passes |
| TextChecks.GapMatchesRowGap | tests/brand/brand-compliance.test.js:93-94 | `row-gap: 6px` in an unrelated rule satisfies the gap test |
| TextChecks.WrongBoldWeightFails | tests/brand/brand-compliance.test.js:116 | a bold weight of 700 does not satisfy the 800 declaration |
| Site.RenderContext | build.py:130-135 | the merge fails with a `KeyError` on `canonical` exactly when the page has no canonical path |
| Site.RenderContextPrecedence | build.py:130-135 | the context's keys are the union of the sources; the current path is the canonical path; the speed table wins; page keys override site keys; other site keys pass through |
| Site.ReservedKeysWin | build.py:133-134 | a page setting named `current_path` is overridden by the canonical path |
| Site.OutputPathInjective | build.py:142 | two output strings give the same joined path string iff they are equal (pathlib normalisation is not modelled) |
| Site.BuildablePrefix | build.py:128-135 | the pages before the first one without a canonical path all have one |
| Site.WrittenContents | build.py:128-146 | the path of a page whose output string no later page repeats holds that page's rendering |
| Site.WrittenKeys | build.py:128-146 | the files written are exactly the pages' output paths |
| Site.BuildPages | build.py:126-146 | fails iff some page lacks a canonical path; the files written are those of the pages before the first such page, in order |
| Site.PagesHaveKeys | build.py:38-83 | every listed page has a canonical path, a change frequency and a priority |
| Site.PagesOutputsDistinct | build.py:38-83 | the four listed pages have different outputs |
| Site.BuildOfPages | build.py:126-146 | building the listed pages writes each one to its own file |
| Sitemap.RStripSlash | build.py:153 | `rstrip("/")` returns a prefix with no trailing `/`, and only `/` characters were removed |
| Sitemap.Take | build.py:156 | `[:10]` returns a prefix of length min(n, length) |
| Sitemap.StripIgnoresTrailingSlash | build.py:153 | an extra trailing slash on the site URL is stripped away |
| Sitemap.StripIdempotent | build.py:153 | stripping twice is stripping once, and a URL without a trailing slash is unchanged |
| Sitemap.Setting | build.py:153-158 | defined as `page["config"][key]`, a `KeyError(key)` when the key is missing; the order in which the keys fail is stated by `Sitemap.UrlEntryOutcome` |
| Sitemap.UrlEntryOutcome | build.py:153-159 | an entry exists iff the page has all three keys; the error names the first missing one in the order canonical, changefreq, priority |
| Sitemap.EntriesSucceed | build.py:150-160 | the entries exist iff every page has one |
| Sitemap.EntriesShape | build.py:150-160 | one entry per page, in page order |
| Sitemap.EntriesFailure | build.py:150-160 | a failure carries the error of the first page without an entry |
| Sitemap.GenerateSitemap | build.py:148-168 | the loop's result is the declaration, the `urlset` opening, the newline-joined entries and `</urlset>`, or the first page's missing key |
| Sitemap.FirstFailureWins | build.py:152-160 | once a prefix of the pages fails, the whole sitemap fails with that error |
| Sitemap.SitemapIgnoresTrailingSlash | build.py:153 | trailing slashes on the site URL leave the whole sitemap unchanged |
| Sitemap.EntriesIgnoreTrailingSlash | build.py:153 | trailing slashes on the site URL leave every entry unchanged |
| Sitemap.SitemapOfPages | build.py:38-83 | the listed pages always produce a sitemap |
| Sitemap.RobotsInjective | build.py:170-175 | different site URLs give different robots files, so robots.txt, unlike the sitemap, keeps a trailing slash |
| Sitemap.RobotsMatchesSitemapBase | build.py:172-175 | the configured site URL has no trailing slash, so robots.txt and the sitemap's locs share one base |
| Strings.StartsWith | tests/brand/brand-compliance.test.js:71 | defined as `startsWith`: the string begins with the prefix |
| Strings.EndsWith | tests/brand/brand-compliance.test.js:71 | defined as `endsWith`: the string ends with the suffix (also lines 130 and 182) |
| Strings.Contains | tests/brand/brand-compliance.test.js:94 | defined as `includes` and `toContain`: `indexOf` from position 0 finds the needle (also lines 107 and 116-118) |
| Ascii.Lower | tests/brand/brand-compliance.test.js:33 | defined as `toLowerCase` on ASCII letters (also lines 48-51) |
| Ascii.Upper | tests/brand/brand-compliance.test.js:138 | defined as `toUpperCase` on ASCII letters (also line 142) |
| Ascii.IsWordChar | tests/brand/brand-compliance.test.js:43 | defined as the class `\w`: an ASCII letter, a digit or `_` |
| Scanner.WordBoundary | tests/brand/brand-compliance.test.js:43 | defined as `\b`: exactly one of the characters on either side of the position is a word character |
| Color.PairValue | tests/brand/color-contrast.test.js:23-25 | defined as `parseInt` of two hex digits, sixteen times the first plus the second |
| Contrast.Max | tests/brand/color-contrast.test.js:32 | defined as `Math.max` of two luminances |
| Contrast.Min | tests/brand/color-contrast.test.js:33 | defined as `Math.min` of two luminances |
| ContrastPolicy.CombinationRequirement | tests/brand/color-contrast.test.js:44-52 | defined as the test of one approved combination: its title, its background, its foreground and the minimum 3 |
| Color.IsHexColor | tests/brand/color-contrast.test.js:21 | defined as six hex digits, alone or after one `#`: what the anchored pattern accepts |
| Contrast.ContrastRatio | tests/brand/color-contrast.test.js:29-35 | defined as `Contrast.Ratio` of the two colours' luminances |
| ContrastPolicy.ContrastOf | tests/brand/color-contrast.test.js:29-35 | defined as the ratio function over colour strings for a given `pow` |
| ContrastPolicy.Meets | tests/brand/color-contrast.test.js:51 | defined as: the ratio of the test's background and foreground is at least its minimum |
| ContrastPolicy.SuitePasses | tests/brand/color-contrast.test.js:43-103 | defined as: every test of `Requirements` meets its minimum |
| Scanner.MatchAt | tests/brand/brand-compliance.test.js:43 | defined as: the literal pattern (`#`, six hex digits, a word boundary) or the fill pattern of line 77 (`fill=`, a quote, `#`, six hex digits, a quote) matches at position i |
| Scanner.Scan | tests/brand/brand-compliance.test.js:44 | defined as the global `match`: try at i, after a match resume at its end, otherwise one character on |
| Palette.HexLiterals | tests/brand/brand-compliance.test.js:43-44 | defined as the scan of the literal pattern over the whole stylesheet |
| Palette.IsApproved | tests/brand/brand-compliance.test.js:48-51 | defined as: the lower-cased literal is in the approved palette or is one of the greys, with `#e5e5e5` listed twice |
| Palette.Unapproved | tests/brand/brand-compliance.test.js:46-56 | defined as the found literals that are not approved, in order, duplicates kept |
| Palette.StylesheetPasses | tests/brand/brand-compliance.test.js:38-62 | defined as: the stylesheet is missing or every scanned literal is approved |
| Assets.IsSvgFile | tests/brand/brand-compliance.test.js:181-182 | defined as: the name ends in `.svg` |
| Assets.IsLogoFile | tests/brand/brand-compliance.test.js:70-71 | defined as: the name starts with `logo-` and ends in `.svg` |
| Assets.SizeTestCoversLogos | tests/brand/brand-compliance.test.js:70-71 | every logo file is an SVG file, so when every SVG is under 2048 bytes so is every logo |
| Assets.Fills | tests/brand/brand-compliance.test.js:77-78 | defined as the scan of the fill pattern over the whole SVG |
| Assets.DistinctFills | tests/brand/brand-compliance.test.js:79 | defined as the set of the scanned fill texts |
| Assets.FillCountOk | tests/brand/brand-compliance.test.js:81 | defined as: at most two distinct fill texts |
| Assets.ForegroundOk | tests/brand/brand-compliance.test.js:137-145 | defined as: no fill, or some combination whose upper-cased foreground equals the first fill's colour |
| Assets.HasFile | tests/brand/brand-compliance.test.js:172 | defined as: some entry of the directory has the name |
| Assets.UnderSizeLimit | tests/brand/brand-compliance.test.js:186-188 | defined as: the size divided by 1024, as a real, is below 2 |
| TextChecks.GapOk | tests/brand/brand-compliance.test.js:91-96 | defined as: the stylesheet is missing or contains `gap: 6px` |
| TextChecks.FontFamilyOk | tests/brand/brand-compliance.test.js:105-107 | defined as: the stylesheet is missing or contains `Manrope` |
| Site.SiteConfig | build.py:17-35 | defined as the ten site settings, with the build date and year as parameters |
| Site.PAGES | build.py:38-83 | defined as the four pages with their templates, outputs and settings |
| Site.OutputPath | build.py:142 | defined as `dist/` followed by the page's output |
| Site.Written | build.py:128-146 | defined as the map from output path to rendering, built page by page, later pages replacing earlier ones |
| Sitemap.Loc | build.py:153 | defined as the stripped site URL followed by the canonical path |
| Sitemap.UrlBlock | build.py:154-159 | defined as the six-line `<url>` block with the loc, lastmod, changefreq and priority |
| Sitemap.UrlEntry | build.py:153-159 | defined as the page's `<url>` block, reading canonical, changefreq and priority in that order and failing at the first missing one |
| Sitemap.Entries | build.py:150-160 | defined as the entries of the pages in order, or the first missing key |
| Sitemap.JoinLines | build.py:164 | defined as the lines joined with a newline between each two |
| Sitemap.Document | build.py:162-165 | defined as the XML declaration, the `urlset` opening, the joined entries and `</urlset>`, one per line |
| Sitemap.SitemapText | build.py:162-165 | defined as the document of the entries, or the first missing key |
| Sitemap.Robots | build.py:172-175 | defined as the user-agent line, the allow line, a blank line and the sitemap line with the site URL as given |

## Left out

- Floating point: luminance and ratios are exact reals, and `Math.pow(x, 2.4)` is a parameter. No ratio is evaluated for the real token values. The file brand/tokens/colors.json is not part of this model.
- Contrast.Luminance: its contract does not state the weighted sum 0.2126/0.7152/0.0722 beyond the body, because the value depends on the `pow` parameter.
- Unicode case mapping: `toLowerCase` and `toUpperCase` are modelled on ASCII letters only.
- File-system calls (`existsSync`, `readFileSync`, `readdirSync`, `statSync`): their results are inputs. `existsSync` on a required name is modelled as "an entry with that name exists". The order of `readdirSync` is taken as given.
- Loading `colors.json`: the tokens are a complete record, so a missing token is not modelled. In brand-compliance.test.js a missing token would raise a `TypeError`: at the lower-casing of the palette (line 33), or at the upper-casing of a combination's foreground (line 142). In color-contrast.test.js nothing is raised: the regular expression tests the string "undefined", fails, and the token gets luminance 0 like black.
- Logging: `console.warn` with its deduplicated list of unapproved colours, `console.log` of each ratio, and every `print` in the build script.
- Jest reporting: each test method returns pass or fail, not the failure message or a list of failing names.
- `clean_dist`, `copy_static_assets` and `main`: directory removal, copying and printing are I/O.
- Jinja2: rendering is a parameter `render`. Template lookup errors and autoescaping are not modelled.
- `datetime.now()`: the build date and year are parameters of `Site.SiteConfig`.
- `SPEED_DATA`: its contents are one abstract context value.
- Site.OutputPathInjective: holds of the string join `dist/` + output only. pathlib collapses `./`, doubled and trailing `/`, and an absolute output replaces `dist` altogether, so `index.html` and `./index.html` name one file although their joined strings differ. `Site.WrittenContents` and `Site.WrittenKeys` are about these strings in the same way.
- `pathlib`: `Path("dist") / output` is the string `dist/` + output, without normalisation. Directory creation (`mkdir(parents=True)`) and the writes of `sitemap.xml` and `robots.txt` are left out. The sitemap and robots texts are results.
- Sitemap.UrlEntry: no lemma recovers the loc, date and priority fields back out of an entry's text.
- static/js/main.js, check-brand.js and scripts/generate-favicons.js are not part of this model: they are DOM wiring, browser automation and image rasterisation.
