# Course setup: a verified model of the Markdown course generator

`course_setup_md.py` asks for a course number, a course title, a short title and a list of
sections (each with its subsections). It then writes an Obsidian-style course skeleton:
- a course index page;
- per section, an index page, a flashcard page and one page per subsection, each with a table
  of contents made of `[[target|caption]]` wikilinks;
- or, with `--no-dirs`, one flat page per section.

This project models the deterministic part of that program in Dafny and proves what it
promises:
- slugs;
- title casing with Roman numerals and minor words;
- the page layout of `render_markdown`;
- the two table-of-contents builders;
- the course directory;
- the list of files each section writes;
- the dialogue of `get_user_input`, over a scripted list of answers;
- the one rule `parse_args` checks.

Modules, in dependency order:

| module | contents |
|---|---|
| `Wrappers` | `Option` and `Result`. |
| `Chars` | ASCII `lower`, `upper`, `capitalize` and `strip`, and `"".join` (`Concat`). |
| `Numbers` | `f"{n:02d}"` (`Format02`), the simplified `int()` (`ParseInt`), and their round trip. |
| `Slug` | `generate_slug` as the source's `replace` chain (`GenerateSlug`), proved equal to a per-character translation (`SlugOf`). |
| `Roman` | The Roman-numeral regular expression, written as a predicate on the pattern (`MatchesRoman`) and as a matcher (`RomanUpper`), proved equivalent. |
| `Title` | `re.split(r"(\s+)", …)` (`SplitWs`) with its inverse `Concat`, and `handle_title` (`HandleTitle`). |
| `Markdown` | `render_markdown` (`RenderMarkdown`) and how its layout reads back. |
| `Toc` | Both TOCs as lists of `Line` values: `SectionTocLines` for `generate_section_toc` and `CourseTocLines` for `generate_course_template`. |
| `Plan` | The page records (`Page` for `MarkdownPage`), the page templates (`Doc`), `output_dir`, and the actions one section performs (`SectionPlan`). |
| `Pages` | The classes `Section` and `Course` with the source's fields and methods. Their loops are proved against the functions of `Toc` and `Plan`. |
| `Input` | `get_user_input` as methods over a scripted list of answers, proved against the function `Collect`. |
| `Cli` | The flag rule, and `main` as `Run`, proved against `Outcome`. |
| `TitleExamples`, `InputExamples` | The unit tests' inputs, evaluated on the model. |

File-system effects are values of type `Plan.Action`:
- `WriteFile(path, doc)` writes the rendered `doc`;
- `MakeDirs(path)` creates a directory.

A method returns them in the order the program performs them. The working directory is a
parameter.

## Model

| member | source | states |
|---|---|---|
| Chars.Lower | course_setup_md.py:581 | `str.lower()` keeps the length and lower-cases each character. |
| Chars.Upper | course_setup_md.py:640 | `str.upper()` keeps the length and upper-cases each character. |
| Chars.Capitalize | course_setup_md.py:643 | `str.capitalize()` keeps the length, upper-cases the first character and lower-cases the rest. |
| Chars.CaseVariants | course_setup_md.py:640-645 | `lower`, `upper` and `capitalize` change letter case only. Lower-casing their result gives the lower-cased input. |
| Chars.ConcatAppend | course_setup_md.py:647 | `"".join` of two lists placed one after the other is the join of the first followed by the join of the second. |
| Chars.Strip | course_setup_md.py:479 | The stripped answer neither starts nor ends with whitespace. |
| Chars.StripIsSlice | course_setup_md.py:479 | `strip()` keeps one slice of the text; everything cut before and after it is whitespace. |
| Chars.StripKeeps | course_setup_md.py:498 | Text without leading or trailing whitespace is unchanged by `strip()`. |
| Numbers.Format02 | course_setup_md.py:115 | `f"{n:02d}"` has at least two characters, and exactly two for 0 to 99. It consists of digits exactly when `n` is not negative; a negative number is `-` followed by digits. |
| Numbers.ParseInt | course_setup_md.py:481 | The course-number parser accepts exactly an optional sign followed by one or more digits; a digit string gives its decimal value. |
| Numbers.Format02RoundTrip | course_setup_md.py:115 | Parsing what `f"{n:02d}"` printed gives `n` back, for every integer. |
| Numbers.Format02Injective | course_setup_md.py:177-191 | Different section or subsection numbers print differently, so TOC links never collide on their number. |
| Slug.Replace | course_setup_md.py:572-580 | After `s.replace(c, t)` with `c` not in `t`, the result holds no `c`. |
| Slug.GenerateSlugIsSlugOf | course_setup_md.py:571-582 | The `replace` chain followed by `lower()` equals translating the title one character at a time. |
| Slug.GenerateSlugChar | course_setup_md.py:571-582 | What one character becomes: brackets, `?`, `!`, `,` and `'` vanish; a space becomes `_`, `:` becomes `_-` and `/` becomes `-`; any other character is lower-cased. |
| Slug.GenerateSlugAppend | course_setup_md.py:571-582 | The slug of two pieces of text placed together is the slug of the first followed by the slug of the second. |
| Slug.SlugSplits | course_setup_md.py:574-576 | Each character is translated where it stands: the slug of `a + [c] + b` is the slug of `a`, then `c`'s translation, then the slug of `b`. |
| Slug.SlugIsClean | course_setup_md.py:571-582 | A slug contains none of `(`, `)`, space, `:`, `/`, `?`, `!`, `,`, `'` and no upper-case letter. |
| Slug.SlugIdempotent | course_setup_md.py:571-582 | Slugifying a slug changes nothing. |
| Roman.RomanUpperMatches | course_setup_md.py:595-598 | The matcher accepts an upper-case string exactly when the anchored pattern matches it: the lookahead, `M*`, then one form of each of the hundreds, tens and ones groups. |
| Roman.RomanIgnoresCase | course_setup_md.py:597 | Matching ignores case: two texts that differ only in case are both numerals or both not. |
| Roman.RomanUsesRomanLetters | course_setup_md.py:596 | A numeral consists only of the letters M, D, C, L, X, V and I, in either case. |
| Roman.NotRoman | course_setup_md.py:596 | A part with any other letter is not a numeral. |
| Roman.OnesNumeral | course_setup_md.py:596 | "I" to "IX" on their own are numerals. |
| Title.SplitWs | course_setup_md.py:636 | `re.split(r"(\s+)", text)` always has an odd number of parts. |
| Title.SplitJoin | course_setup_md.py:636 | Joining the parts of the split gives the text back. |
| Title.SplitWellFormed | course_setup_md.py:636 | The parts alternate between text without whitespace, empty only at the two ends, and non-empty whitespace runs. |
| Title.JoinSplit | course_setup_md.py:636 | Splitting the join of such alternating parts gives the same parts back, so the split and the join are inverses. |
| Title.MinorWordsSpelled | course_setup_md.py:600-634 | The minor-word predicate the model uses picks out exactly the 33 words of the source's set. |
| Title.RecaseParts | course_setup_md.py:637-645 | `new_parts` has one re-cased part per part of the split, in order. |
| Title.TitlePartCase | course_setup_md.py:639-645 | Re-casing a part keeps its length and its whitespace positions, and lower-cases to the same text. |
| Title.SpaceRunVerbatim | course_setup_md.py:636-645 | A whitespace run is kept exactly as it is. |
| Title.RomanPartUpper | course_setup_md.py:639-640 | A part that matches the numeral pattern is upper-cased in full, wherever it stands. |
| Title.MinorWordsNotRoman | course_setup_md.py:600-642 | No minor word is a numeral, so the numeral rule never hides the minor-word rule. |
| Title.MinorPartLower | course_setup_md.py:642-645 | A minor word is lower-cased unless it equals the first part of the split. If it does, it is capitalized, whatever its position. |
| Title.OrdinaryWord | course_setup_md.py:642-643 | A word that is neither a numeral nor a minor word is capitalized. |
| Title.HandleTitleOnlyCase | course_setup_md.py:636-647 | `handle_title` keeps the length, and lower-casing its result equals lower-casing its input. |
| Title.HandleTitleParts | course_setup_md.py:636-647 | The result splits into as many parts as the input. Every whitespace run comes out verbatim; every other part is re-cased against the first part. |
| Title.HandleTitleWords | course_setup_md.py:636-647 | For words separated by single spaces, the result is each word re-cased against the first word, joined by single spaces. |
| TitleExamples.ExampleCourseTitle | test/test_utilities.py:6 | "course title" becomes "Course Title". |
| TitleExamples.ExampleCourseTitleII | test/test_utilities.py:9 | "course title ii" becomes "Course Title II". |
| TitleExamples.ExampleCourseTitleIX | test/test_utilities.py:10 | "course title ix" becomes "Course Title IX". |
| TitleExamples.ExampleMinorWords | test/test_utilities.py:13 | "title of the course" becomes "Title of the Course". |
| TitleExamples.ExampleCourseIsImportant | test/test_utilities.py:14 | "the course is important" becomes "The Course Is Important". |
| TitleExamples.ExampleRepeatedFirstWord | course_setup_md.py:642 | "on and on" becomes "On and On": the comparison with `parts[0]` is by value, not by position. |
| Markdown.RenderLayout | course_setup_md.py:669-680 | The page starts with `---`, a line break and `title: "`, followed by the title and its closing quote. It ends with the TOC, `\n---\n` and `extra`. Its length is twice the title's plus the TOC's and `extra`'s plus 52 characters of fixed layout, or 43 without dates. |
| Markdown.RenderTitleRoundTrip | course_setup_md.py:671 | A title without double quotes reads back unchanged from the front matter, up to the first quote. |
| Markdown.RenderDatesIff | course_setup_md.py:673 | The page holds `dates: []` right after the tags line exactly when `dates` is set. |
| Toc.SectionEntriesCount | course_setup_md.py:175-211 | How many lines the sections add to a section TOC: in directory mode one per section plus the current section's subsection and flashcard lines; in flat mode one per section, or none with `no_toc`. |
| Toc.SectionTocCount | course_setup_md.py:172-213 | A section TOC has 1 + n + k + 1 lines in directory mode, when the current section has k subsections and appears once among n sections. It has 1 + n lines in flat mode, or 1 with `no_toc`. |
| Toc.SectionEntriesOrder | course_setup_md.py:175-211 | Sections appear in insertion order: the lines of section j + 1 are exactly its own entry, right after the lines of the sections before it. |
| Toc.SectionEntryHead | course_setup_md.py:179-202 | In directory mode a section's entry starts with its `00-<slug>` link. It has the subsection lines and the flashcard line only for the current section. |
| Toc.FlatEntries | course_setup_md.py:204-211 | In flat mode line j + 1 of the TOC is the `NN-<slug>` link of section j + 1. |
| Toc.OtherSectionsCollapsed | course_setup_md.py:187-202 | Only the current section shows its subsections and flashcard line. Its entry is the one the course TOC gives it. |
| Toc.CourseEntriesCount | course_setup_md.py:390-421 | The course TOC has, per section, its link, all of its subsections and one flashcard line in directory mode, and one line per section in flat mode. |
| Toc.CourseIsEverySection | course_setup_md.py:386-423 | The course TOC equals a section TOC in which every section is the current one. |
| Toc.FlatSectionIsCourse | course_setup_md.py:416-421 | In flat mode without `no_toc` every section TOC equals the course TOC. |
| Plan.Outline | course_setup_md.py:275-280 | A given, non-empty `--extra` text replaces the default outline. No text, or an empty one, gives `## Key Points/Concepts\n\n## Lecture\n\n## Misc.`. |
| Plan.FlashcardHeaders | course_setup_md.py:132-138 | The flashcard page has one H2 header per subsection. |
| Plan.FlashcardHeadersAt | course_setup_md.py:134-135 | Header `k` of the flashcard page is `## handle_title(subs[k])` followed by two blank lines, so the headers follow the subsections in order. |
| Plan.HandleTitleQuoteFree | course_setup_md.py:585-647 | `handle_title` never introduces a double quote. |
| Plan.DocTitleQuoteFree | course_setup_md.py:117 | A page title built from quote-free short and section titles is quote-free. |
| Plan.DocReadBack | course_setup_md.py:117-142 | Each section, flashcard, subsection or flat page reads back its own title from the front matter. It carries `dates: []` exactly when it is not the flashcard page, and it ends with its extra block. |
| Plan.CreateMarkdownFilePath | course_setup_md.py:32-36 | `create_markdown_file` writes the page's template to `out_dir + "/" + filename`. |
| Plan.OutputDirShape | course_setup_md.py:427-439 | The course directory is the working directory joined with `NN-<slug>` when the course number is truthy, or with the bare slug when it is missing or 0. A slug never starts with `/`, so it never replaces the working directory. |
| Plan.DirPlanHead | course_setup_md.py:240-268 | In directory mode a section takes 4 + 2k actions. The first four are: `100-review_files/`; then `00-<slug>.md` and `99-flashcards_<slug>.md` in the section directory; then the course index in the course directory. |
| Plan.DirPlanSubsections | course_setup_md.py:270-293 | After those four, subsection k + 1 writes `KK-<subslug>.md` into the section directory and then makes `100-review_files/KK-<subslug>/`. |
| Plan.SubsectionFile | course_setup_md.py:282-291 | A subsection page is `KK-<subslug>.md` and holds the subsection template with the outline. |
| Plan.FlatPlanShape | course_setup_md.py:294-320 | In flat mode a section writes exactly the course index and then `NN-<slug>.md`, both into the course directory. |
| Plan.CourseIndexRewritten | course_setup_md.py:259-303 | The same course index write is among every section's actions, in both modes. |
| Pages.TocTextsAt | course_setup_md.py:236-238 | The TOC stored in a section is the section TOC of the whole course, seen from that section. |
| Pages.SectionPlansSize | course_setup_md.py:455-458 | The sections before section n take four actions plus two per subsection each in directory mode, and two each in flat mode. |
| Pages.SectionsPlanOrder | course_setup_md.py:455-458 | The sections are generated one after the other in list order. Section i + 1's actions are exactly its own plan, right after the actions of the sections before it. |
| Pages.CourseIndexPerSection | course_setup_md.py:455-458 | The identical course index is written once within each section's stretch of actions. |
| Pages.Section.constructor | course_setup_md.py:99-105 | A new section has its title's slug, no subsections, number 0 and an empty TOC. |
| Pages.Section.SectionTemplate | course_setup_md.py:107-118 | The section index page is the page of its `SectionIndexDoc`: number `NN.00`, dates, default extra block. |
| Pages.Section.FlashcardTemplate | course_setup_md.py:120-142 | The loop that collects the H2 headers produces the flashcard page of its `FlashcardDoc`: number `NN.99`, " Flashcards", no dates. |
| Pages.Section.AddSubsections | course_setup_md.py:144-151 | The subsection title is appended at the end. |
| Pages.Section.GenerateSectionToc | course_setup_md.py:153-213 | The loop produces the rendered section TOC: the course line, then every section's entry in order, with the subsections and the flashcard line of this section only. |
| Pages.Section.AppendSectionLines | course_setup_md.py:175-211 | One round of that loop appends exactly the entry of its section. |
| Pages.Section.GenerateDirAndMarkdownFiles | course_setup_md.py:215-320 | The section stores its number and its TOC, and returns the plan of its files for that number and TOC. In directory mode the section index written renders to the section's `SectionTemplate()`, and the flashcard page written is the `FlashcardDoc` that `FlashcardTemplate` renders, both over the stored number and TOC. |
| Pages.Section.DirectoryFiles | course_setup_md.py:240-293 | The directory-mode actions are the four fixed ones and then the subsection actions. |
| Pages.Section.SubsectionFiles | course_setup_md.py:270-293 | The subsection loop produces each subsection's page write followed by its review directory, in order. |
| Pages.Section.FlatFiles | course_setup_md.py:294-320 | The flat-mode actions are the course index and then the section's page. |
| Pages.Course.constructor | course_setup_md.py:359-366 | A new course has its titles and number, no sections, and an empty template and slug. |
| Pages.Course.CourseTocLinesOf | course_setup_md.py:386-421 | The loop produces the course TOC lines: the course line, then every section's entry in order. |
| Pages.Course.AppendCourseSection | course_setup_md.py:390-421 | One round appends the section's link, all its subsections and its flashcard line, or its flat link. |
| Pages.Course.GenerateCourseTemplate | course_setup_md.py:376-425 | The course template is the course index page over the current slug, titles and subsections. |
| Pages.Course.GenerateCourse | course_setup_md.py:460-466 | The slug is set before the template, so the course line links to the new slug. The template is the course page of the final slug. Section i ends up numbered i + 1 (at its last position) with the TOC of the whole course. The actions are the section plans, in order. |
| Pages.Course.GenerateSections | course_setup_md.py:441-458 | For each section in list order: number i + 1, its TOC and its plan. Subsections are unchanged. |
| Pages.Course.RunSections | course_setup_md.py:455-458 | The loop's actions are the section plans one after the other. After the loop every section holds its TOC and its number. |
| Pages.Course.SectionRound | course_setup_md.py:456-458 | One round produces its section's plan. Earlier sections keep their TOCs, and their numbers unless they are the same object. |
| Pages.Course.GenerateSection | course_setup_md.py:456-458 | One call to `generate_dir_and_markdown_files` sets the number and the TOC and returns the section's plan. |
| Input.ReadNumberFirstAccepted | course_setup_md.py:478-484 | The course number comes from the first answer that is blank or an integer once stripped; every earlier answer was rejected. Input ending before such an answer is `EOFError`. |
| Input.ReadTitleFirstNonBlank | course_setup_md.py:486-490 | The course title is the first answer that is not blank once stripped; every earlier answer was blank. Input ending first is `EOFError`. |
| Input.SubsInOrder | course_setup_md.py:501-506 | The subsection prompt collects the stripped answers up to the first end of input, in order, and continues after it. |
| Input.FlatSectionsHaveNoSubsections | course_setup_md.py:500-506 | Without directories every section has no subsections. |
| Input.FlatSectionsInOrder | course_setup_md.py:496-510 | Without directories the sections are exactly the stripped answers up to the end of input, in the order typed. |
| Input.AskNumber | course_setup_md.py:478-484 | The number loop computes what `ReadNumber` describes. |
| Input.AskTitle | course_setup_md.py:486-490 | The title loop computes what `ReadTitle` describes. |
| Input.AskSubsections | course_setup_md.py:500-506 | The subsection loop appends the answers `ReadSubs` reads to the section. |
| Input.AskSection | course_setup_md.py:498-506 | One section round makes a new section of the course, with its title's slug, holding what `ReadSections` reads first. |
| Input.AddSection | course_setup_md.py:498-508 | The section is appended to `course.sections`, as a new object. |
| Input.AskSections | course_setup_md.py:495-510 | The section loop appends new, separate sections of the course, which read back as `ReadSections` of the script. |
| Input.NewCourse | course_setup_md.py:492-510 | The course is built from the answers, with the sections asked for from its position on. |
| Input.GetUserInput | course_setup_md.py:469-512 | The dialogue fails exactly when `Collect` does, with the same error. Otherwise the new course holds the collected number, titles and sections, as separate new objects. |
| InputExamples.ExampleInvalidNumberRetried | test/test_utilities.py:74-78 | The answers `a`, `1`, … give course number 1 and no sections. |
| InputExamples.ExampleFlatSections | test/test_utilities.py:40-48 | Without directories a blank number gives none, and two section answers give two sections without subsections. |
| InputExamples.ExampleSubsections | test/test_utilities.py:30-38 | In directory mode a section's subsections are the answers up to its end of input. |
| InputExamples.ExampleEofAtTitle | course_setup_md.py:486-487 | Input that ends at the title prompt is `EOFError`. |
| Cli.ValidateArgs | course_setup_md.py:543-544 | The flags are rejected exactly when `--no-toc` is given without `--no-dirs`, with the source's message; otherwise they pass unchanged. |
| Cli.FlagErrorFirst | course_setup_md.py:541-546 | Bad flags stop the program before the first prompt, whatever would have been typed. |
| Cli.DialogueErrors | course_setup_md.py:683-690 | With valid flags the program fails exactly when the dialogue fails, with its error. |
| Cli.TocsOfSections | course_setup_md.py:236-238 | The TOC each section stores marks that section, and only it, as the current one: the sections are separate objects. |
| Cli.ViewsOfSections | course_setup_md.py:99-105 | Each section's page uses its own typed title, its title's slug and the course's short title. |
| Cli.Run | course_setup_md.py:683-690 | `main` gives exactly `Outcome`: the flag error, the dialogue's error, or the planned actions of `CoursePlan`. |
| Cli.Generate | course_setup_md.py:689-690 | `generate_course`, run on the course the dialogue built, gives `CoursePlan` of the typed answers. |

## Left out

- File-system effects: `FileGenerator.create_markdown_file`, `Path.mkdir` and `os.makedirs` are not performed. Each is an `Action` in a returned list; `WriteFile` includes creating the parent directory.
- `os.getcwd()`: the working directory is a parameter.
- `os.path.join`: modelled for POSIX paths only.
- The `int()` in `output_dir`: the number is already an integer in the model.
- argparse: option parsing, `--help`, the usage text and the exit status of `parser.error` are not modelled. The flags arrive as an `Args` value, and the error is `Err` with the source's message.
- `parse_terminal_text` (course_setup_md.py:549-558): not modelled, because it depends on Python's `unicode_escape` codec. The `--extra` text arrives already decoded.
- `input()` and `print()`: prompts and messages are not modelled. The answers are a scripted list in which `None` stands for Ctrl-D; reading past the end is also end of input, as in the test's mock.
- An `EOFError` at the number, title or short-title prompt: Python lets it escape as an exception; the model returns `Err("EOFError")`.
- `int()` on the course number: simplified to an optional sign and ASCII digits. Python also accepts underscores between digits, non-ASCII digits and surrounding whitespace; the answer is stripped first, so the last of these does not arise.
- Unicode: characters are ASCII only. `lower`, `upper`, `capitalize`, `strip` and `\s` cover ASCII letters and ASCII whitespace only.
- `re`: the Roman-numeral pattern is a hand-written predicate and matcher, proved equivalent to the pattern as written.
- `Course.__str__` (course_setup_md.py:368-374): debug output.
- `MarkdownPage` (course_setup_md.py:39-58): modelled as `Plan.Page`. Its template is a `Doc` that `Plan.Text` renders.
- Pages.Section.GenerateDirAndMarkdownFiles: computes the TOC before storing the number, where the source does it the other way round. This is equivalent, because the TOC does not read the number. The source's writes happen in the returned actions' order.
- Pages.Section: `slug`, `section_title` and `course` are `const`, because the source never assigns them after `__init__`.
- Ghost parameters: the ghost parameters of `Pages` and `Input` methods only carry the proof. They do not change what the methods compute.
- Input.GetUserInput: does not restate that each new section starts with number 0 and an empty TOC; `Pages.Section.constructor` states it.
- Input.FlatSectionsInOrder: states the section titles and their count. `Input.FlatSectionsHaveNoSubsections` states the empty subsection lists separately.
- InputExamples.ExampleFlatSections: uses two sections, where the test at test/test_utilities.py:40-48 uses three.
- InputExamples.ExampleSubsections: uses one section with one subsection, where the test at test/test_utilities.py:30-38 uses two sections of two subsections each. The general lemmas `Input.SubsInOrder` and `Input.AskSections` cover longer scripts.
- The tests with blank course titles (test/test_utilities.py:50-61) are covered by the general lemma `Input.ReadTitleFirstNonBlank` rather than by an evaluated script.
