/** Status badges. Each screen picks one colour family for a badge's CSS
    classes (`bg-green-100 text-green-800 ...`); the model keeps the family. */
module Badges {

  datatype Tone = Green | Blue | Yellow | Red | Gray
}
