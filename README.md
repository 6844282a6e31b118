# YouTube music console: selection prompt, player and downloader options, search normaliser

This project models the deterministic logic of a small YouTube-music program.
The program itself is glue around yt-dlp (search and download), mpv (playback) and the console.
The model covers three pieces of it:

- **Selection prompt** (`interactive_mode.get_user_choice`), in `interactive_mode.dfy`.
  - Each input line is stripped and lower-cased.
  - 'q' quits and 'b' goes back.
  - `<n>p`, `<n>d` and a bare `<n>` play or download result `n`, counting from 1.
  - A number out of range, or text `int()` rejects, makes the loop prompt again.
  - `Classify` is one turn of the loop as a function. `Choose` is the loop as a fold over the input lines. `GetUserChoice` is the loop itself as a `while` loop proved equal to the fold.
  - The Python built-ins the prompt relies on (`str.strip`, `str.lower`, `int`, `str`) are modelled in `pytext.dfy`.
  - `int()` is modelled with CPython's leniency: surrounding whitespace, one sign, single underscores between digits. So "3 p" selects like "3p", and a lone "p" is not a number.
  - `int()` does not skip the four ASCII information separators U+001C..U+001F, although `str.isspace()` and `str.strip()` count them as whitespace. So "3\x1cp" is not a number.
- **Player and downloader** (`music_player.play_music`, `music_player.download_media`), in `music_player.dfy`.
  - The stream search picks the top-level `url`, or else the first format that has a `url` and an `acodec` other than 'none'. It is a loop with `break`, proved against the function `ChosenUrl`.
  - Dict values met by the search are Python `None` or strings. A `None` codec counts as playable, and a `None` or empty url starts nothing.
  - The mpv argument vector is built from the chosen stream.
  - The yt-dlp option dict is built step by step for 'mp3' and 'mp4' and refused for any other format token. `OptionsFor` states it entry by entry and pins it down uniquely.
  - The progress callback is the class `ProgressLog`, an append-only list of event dicts. `download_media` appends yt-dlp's own progress dicts and then exactly one terminal event, or a single error event for an unsupported format.
- **Search normaliser** (`youtube_search.search_youtube_music`), in `youtube_search.dfy`.
  - The search string `ytsearch<N>:<query>` is built, and is proved to decode back to `N` and the query.
  - The entry list is mapped to `{title, id, url}` records in a loop proved equal to the function `Tracks`. Missing or empty entries are skipped, defaults are filled in and order is kept.

`outcomes.dfy` holds the `Option` and `Result` datatypes used for absent dict keys, Python `None` and exceptions raised by foreign calls.

What yt-dlp, `subprocess.Popen` and the file system answer is passed in as parameters:
- the extracted info dict or the exception raised;
- how `Popen` fared;
- the directories that exist;
- the progress dicts yt-dlp sends;
- what `ydl.download` raised.

What is handed to them is returned: the mpv command, the option dict with the URL list, and the search string.

## Model

| member | source | states |
|---|---|---|
| PyText.Strip | interactive_mode.py:32 | `strip()` yields text no longer than the line that neither starts nor ends with whitespace (the CPython `isspace` set); `StripDropsOnlySpace` and `StripPadded` say which piece it is |
| PyText.StripDropsOnlySpace | interactive_mode.py:32 | `strip()` removes only whitespace: every non-space character of the line survives and no character is invented |
| PyText.StripPadded | interactive_mode.py:32 | whitespace on both sides of a piece without whitespace at its ends is exactly what `strip()` removes |
| PyText.LowerAt | interactive_mode.py:32 | `lower()` maps each character independently: ASCII upper-case letters to lower case, everything else unchanged |
| PyText.ParseIntAccepts | interactive_mode.py:50 | `int()` succeeds exactly when the text holds no information separator and, once its whitespace is stripped, is a digit group, optionally after one '+' or '-'; any information separator anywhere makes it raise |
| PyText.ParseSigned | interactive_mode.py:50 | `int()` succeeds on stripped text exactly when it is a digit group, optionally after one '+' or '-' |
| PyText.ParseIntChars | interactive_mode.py:50 | text `int()` accepts holds at least one digit and only digits, the whitespace `int()` skips, signs and underscores |
| PyText.ParseIntPaddedDigits | interactive_mode.py:50 | digits with whitespace other than the information separators around them parse to their decimal value |
| PyText.ParseIntLoneChar | interactive_mode.py:50 | a single character that is neither a digit nor whitespace makes `int()` raise |
| PyText.NatToString | youtube_search.py:34 | `str(n)` of a natural number is a non-empty run of digits with no leading zero whose decimal value is n |
| PyText.IntToString | youtube_search.py:34 | `str(n)` is non-empty and starts with '-' exactly when n is negative |
| PyText.ParseIntToString | youtube_search.py:34 | `int(str(n)) == n` for every integer n |
| InteractiveMode.Normalise | interactive_mode.py:32 | the normalised line is no longer than the input, has no whitespace at either end and no ASCII upper-case letter |
| InteractiveMode.NormaliseIdempotent | interactive_mode.py:32 | normalising a normalised line changes nothing |
| InteractiveMode.SplitAction | interactive_mode.py:42-48 | the action is 'p' or 'd'; the last character is split off as the action exactly when the line has two or more characters and ends in 'p' or 'd'; otherwise the action is 'p' and the number part is the whole line |
| InteractiveMode.Classify | interactive_mode.py:32-62 | a line quits exactly when it normalises to "q" and goes back exactly when it normalises to "b"; for any other line, a number part `int()` rejects prompts again, a parsed number outside 1..count prompts again, and a parsed number n in range downloads result n when the action is 'd' and plays it otherwise, at index n - 1; the "Invalid action" branch is never taken |
| InteractiveMode.Decide | interactive_mode.py:34-56 | 'q' gives `None`, 'b' gives `('back', None)`, and a play or download step gives that action with the result at the step's index |
| InteractiveMode.Choose | interactive_mode.py:20-65 | with no results the loop quits before reading any line; the loop never reads more lines than exist; a chosen song is one of the results |
| InteractiveMode.GetUserChoice | interactive_mode.py:20-65 | the prompt loop returns the choice and the number of lines read that the fold `Choose` over the classified lines gives |
| InteractiveMode.ChooseStopsAtFirstDecision | interactive_mode.py:30-62 | lines answered with a new prompt are skipped, and the first other line decides the answer after exactly k + 1 lines |
| InteractiveMode.ChooseAtEndOfInput | interactive_mode.py:59-65 | when every line is answered with a new prompt, all of them are read and end of input quits |
| InteractiveMode.ClassifyQuitBack | interactive_mode.py:32-39 | 'q', 'Q', 'b' or 'B' with any whitespace around it quits or goes back |
| InteractiveMode.ClassifyNumbered | interactive_mode.py:42-60 | digits alone or followed by 'p' play, followed by 'd' download, result number n when 1 <= n <= count, and prompt again otherwise |
| InteractiveMode.ClassifySpacedAction | interactive_mode.py:42-56 | digits, a blank and 'p' or 'd' select like the same line without the blank, because `int()` ignores the trailing blank |
| InteractiveMode.ClassifyLoneAction | interactive_mode.py:42-50 | a lone 'p' or 'd' is not split, so its number part fails `int()` and the loop prompts again |
| InteractiveMode.ClassifySeparatorInNumber | interactive_mode.py:32-50 | digits, an information separator and 'p' prompt again: `strip()` keeps the separator inside the line and `int()` rejects it |
| MusicPlayer.FirstPlayable | music_player.py:43-46 | the stop index of the formats loop: every earlier format is unplayable and the format there, if any, is playable |
| MusicPlayer.ChosenUrlSpec | music_player.py:35-46 | a top-level url wins, whatever it holds, and formats are ignored; otherwise either no format has both keys and an acodec other than the string 'none' and `audio_url` stays `None`, or it is the value of the first such format's url, even `None` |
| MusicPlayer.SelectStream | music_player.py:35-46 | the loop with `break` yields exactly the stream `ChosenUrl` describes |
| MusicPlayer.MpvCommand | music_player.py:55 | the player command is 'mpv', then '--no-video' and '--force-window=no', then the stream url as the last argument |
| MusicPlayer.PlayMusic | music_player.py:31-72 | a failed extraction, or a stream that is `None` or empty, starts nothing; otherwise Popen gets exactly ['mpv', '--no-video', '--force-window=no', url], and a process is returned exactly when Popen succeeds |
| MusicPlayer.JoinPath | music_player.py:94 | POSIX `os.path.join` returns an absolute name unchanged; for a relative name it is the directory, then a single '/' exactly when the directory is non-empty and does not end in '/', then the name |
| MusicPlayer.BuildDownloadOptions | music_player.py:93-124 | an option dict is built exactly for 'mp3' and 'mp4', and it has exactly the entries `OptionsFor` lists: output template, the three quiet flags, progress hooks exactly when a callback was given, and the format's selector and post-processor |
| MusicPlayer.OptionsForUnique | music_player.py:93-119 | the option entries listed for a format determine the option dict completely |
| MusicPlayer.TerminalEvent | music_player.py:126-139 | the closing event has only 'status' and 'message'; its status is 'finished' exactly when the download raised nothing, in which case the message is 'Download complete!', and its message carries the "Download error: " or "Unexpected error: " prefix for the two kinds of exception |
| MusicPlayer.DownloadEvents | music_player.py:120-139 | for a supported format the callback sees yt-dlp's progress dicts in order followed by the terminal event; for any other format it sees exactly one 'Unsupported format: <fmt>' error event |
| MusicPlayer.DownloadEventsEndOnce | music_player.py:120-139 | every download ends with exactly one event after yt-dlp's ticks, 'finished' only for a supported format and a clean download, 'error' otherwise |
| MusicPlayer.ProgressLog.ReportAll | music_player.py:100-101 | the hook receives each progress dict once, in order, appended to what it already had; each single call `progress_callback({...})` (music_player.py:123, 131, 135, 139) is `ProgressLog.Report`, which appends exactly that one dict |
| MusicPlayer.DownloadMedia | music_player.py:74-139 | the output directory exists afterwards; the downloader is called, with just the video url, exactly for a supported format and with the option dict `OptionsFor` describes; the callback's log grows by exactly `DownloadEvents` |
| YoutubeSearch.SearchString | youtube_search.py:34 | the search string starts with "ytsearch" and ends with ':' followed by the query |
| YoutubeSearch.SearchStringDecodes | youtube_search.py:34 | the search string is "ytsearch", then text up to the first ':' that parses back to max_results, then the query unchanged |
| YoutubeSearch.ToTrack | youtube_search.py:38-42 | a record keeps the entry's title and id, puts 'Unknown Title' and 'Unknown ID' in place of missing ones, and its url starts with the watch prefix |
| YoutubeSearch.TrackUrlMatchesId | youtube_search.py:39-41 | a record's url is the watch url of its id exactly when the entry has an id; without one the id reads 'Unknown ID' while the url ends in 'None' |
| YoutubeSearch.Tracks | youtube_search.py:36-42 | the result list is never longer than the entry list |
| YoutubeSearch.Kept | youtube_search.py:36-37 | the kept positions are strictly increasing, each holds a non-empty entry, and every non-empty entry's position is among them |
| YoutubeSearch.TracksFollowEntries | youtube_search.py:36-42 | the j-th record is built from the entry at the j-th kept position, so every non-empty entry, and no other, yields exactly one record, in entry order |
| YoutubeSearch.TracksAppend | youtube_search.py:36-42 | normalising a concatenation of entry lists is concatenating their normalisations |
| YoutubeSearch.SearchYoutubeMusic | youtube_search.py:27-45 | the extractor gets the search string; an exception or a missing 'entries' key gives an empty list; otherwise the loop builds exactly `Tracks(entries)` |

## Left out

- Printing: every `print` in the three files, including the numbered result list shown before the prompt and the console messages on errors.
- yt-dlp, mpv and ffmpeg: extraction, downloading, post-processing and the progress ticks yt-dlp generates are inputs to the model, not modelled behaviour.
- The option dicts `play_music` and `search_youtube_music` pass to yt-dlp (music_player.py:22-27, youtube_search.py:18-25): they only configure yt-dlp, which is not part of this model. The download option dict is modelled in full.
- `os.path.exists` and `os.makedirs`: modelled as a set of existing directories that gains the output path. A failing `makedirs` is not modelled.
- `subprocess.Popen` and the process it returns: modelled by the outcome `Launch` and the argument vector. The pipes are not modelled.
- Exceptions not derived from `Exception`, such as `KeyboardInterrupt` at the prompt: they would propagate and are not modelled. End of input (`EOFError`) is modelled as quitting, as the catch-all at interactive_mode.py:63-65 does.
- Exceptions raised by the progress callback itself are not modelled.
- Type errors from malformed yt-dlp answers, such as `info` being `None`: not modelled, except that a search answer without 'entries' gives an empty list.
- Python's default arguments (`max_results=5`, `output_path="downloads"`, `progress_callback=None`): the model's operations take every argument explicitly.
- PyText.Lower: only ASCII letters are lowered. Other letters are kept, so a non-ASCII letter whose lower case is 'q', 'b', 'p' or 'd' is not modelled.
- PyText.ParseSigned: only ASCII digits are digits. `int()` also accepts other Unicode decimal digits, which are not modelled.
- PyText.ParseSigned: CPython's limit on the number of digits `int()` converts (4300 by default, configurable per interpreter) is not modelled, so a longer digit group parses here where `int()` raises `ValueError`. The same holds for `ParseInt`, `Classify` and the round trip with `IntToString`, whose `str(n)` raises beyond that limit as well.
- MusicPlayer.ChosenUrl: a 'formats' value that is not a list, such as `None`, makes the loop raise a `TypeError` caught by the catch-all, so nothing is played; dict values other than strings and `None` are not modelled either.
- PyText.LowerAt: states ASCII-only lowering. Python's `lower()` also lowers non-ASCII letters ('É' to 'é') and can lengthen a string ('İ' becomes two characters); neither is promised here.
- InteractiveMode.Normalise: "no longer than the line" and "no ASCII upper-case letter" hold for the ASCII-only `Lower`. Python's `.strip().lower()` can be longer than the line, as for 'İ', and lowers non-ASCII letters too.
- PyText.ParseIntAccepts: the acceptance condition covers ASCII digits only and has no digit limit. `int()` also accepts other Unicode decimal digits (`int("３") == 3`) and raises above CPython's 4300-digit limit.
- PyText.ParseIntChars: `int()` also accepts text whose only digits are non-ASCII decimal digits, such as "３", which holds no character of `IsIntChar`.
- PyText.ParseIntLoneChar: a lone non-ASCII decimal digit such as '３' or '٣' parses in CPython, whereas the lemma's requirement (not an ASCII digit) lets it through to `None`.
- PyText.ParseIntPaddedDigits: above CPython's 4300-digit limit `int()` raises, where the lemma gives the decimal value.
- PyText.ParseIntToString: `str(n)` raises once n has more than 4300 digits, so the round trip is promised here for integers Python does not print.
- InteractiveMode.Classify: a non-ASCII decimal digit such as '３' or '٣p' selects in the source, while the model prompts again; a number of more than 4300 digits makes the source prompt again, while the model selects when it is in range.
- InteractiveMode.ClassifyNumbered: a digit run of more than 4300 digits, such as "000…01", makes `int()` raise and the source prompt again, while the lemma selects result n.
- InteractiveMode.ClassifySpacedAction: the same 4300-digit gap as `ClassifyNumbered`.
- InteractiveMode.GetUserChoice: input lines are decoded text, a sequence of Unicode scalar values. A line the console cannot decode makes `input()` raise `UnicodeDecodeError`, a `ValueError`, and the source prompts again; lone surrogates under `surrogateescape` have no counterpart in a Dafny string.
- YoutubeSearch.ToTrack: dict values are strings. An entry whose 'title' or 'id' key holds a non-string, or Python `None`, is not modelled.
- MusicPlayer.JoinPath: models POSIX `os.path.join`. The Windows separator rules are not modelled.
- `main.py`, `gui_app.py` and the `__main__` demo blocks are not part of this model: they are console and tkinter front ends, threads and dependency checks.
